/**
  Any number of inference and voice handlers over one spend policy, taking their pieces in any order, with any
  answers from the world and any mode changes in between.
*/
module GatewayRuns {
  import opened Common
  import opened Gateway
  import P = SpendPolicy

  datatype System = System(ledger: P.Ledger, handlers: seq<Handler>)

  datatype Move = Arrive(kind: Kind, hooks: Hooks) | SetMode(mode: string) | Turn(k: nat, event: Event)

  const START := System(P.IDLE, [])

  /** A handler between its reservation of an account and the release of it. */
  function Charging(account: string): Handler -> bool {
    (h: Handler) => Holds(h) && h.record.decision.value.accountId == account
  }

  predicate Holds(h: Handler) {
    h.held.Some? && h.record.decision.Some? && ReleaseReservation in h.defers
  }

  predicate Linked(l: P.Ledger, h: Handler) {
    h.held.Some? && h.record.decision.Some? ==>
      && h.held.value < |l.reservations|
      && l.reservations[h.held.value] == P.Reservation(h.record.decision.value, ReleaseReservation !in h.defers)
  }

  ghost predicate Sound(s: System) {
    && P.Sound(s.ledger)
    && (forall k :: 0 <= k < |s.handlers| ==> Told(s.handlers[k]) && Linked(s.ledger, s.handlers[k]))
    && (forall j, k :: 0 <= j < k < |s.handlers| && s.handlers[j].held.Some? ==>
         s.handlers[j].held != s.handlers[k].held)
    && (forall a :: P.Unreleased(s.ledger.reservations, a) == Count(s.handlers, Charging(a)))
  }

  function Next(s: System, maxAge: int, m: Move): System
    requires Sound(s)
  {
    match m
    case Arrive(kind, hooks) => s.(handlers := s.handlers + [Arrived(kind, hooks)])
    case SetMode(mode) => s.(ledger := P.Step(s.ledger, maxAge, P.Action.Set(mode)))
    case Turn(k, e) =>
      if k >= |s.handlers| then s
      else
        var (h, l) := Advance(s.handlers[k], s.ledger, maxAge, e);
        System(l, s.handlers[k := h])
  }

  // ---- what one turn does to the policy ----

  lemma ReservePiece(h: Handler, l: P.Ledger, maxAge: int, candidates: seq<P.Candidate>, now: int)
    requires Told(h) && P.Sound(l) && h.phase == Reserving(candidates)
    ensures var (h', l') := Advance(h, l, maxAge, ReserveAt(now));
            || (l' == l && h'.held == h.held && h'.defers == h.defers && h'.record == h.record)
            || (&& h'.record.decision.Some? && ReleaseReservation in h'.defers && h'.held == Some(|l.reservations|)
                && l'.reservations == l.reservations + [P.Reservation(h'.record.decision.value, false)])
  {
    hide P.Sound;
  }

  lemma ReleasePiece(h: Handler, l: P.Ledger, maxAge: int)
    requires Told(h) && P.Sound(l) && Linked(l, h) && h.phase == Returning
    requires h.defers != [] && h.defers[|h.defers| - 1] == ReleaseReservation
    ensures var (h', l') := Advance(h, l, maxAge, Unwind);
            && Holds(h) && h'.held == h.held && h'.record == h.record && ReleaseReservation !in h'.defers
            && h.held.value < |l.reservations|
            && l'.reservations == l.reservations[h.held.value := P.Reservation(h.record.decision.value, true)]
  {
    hide P.Sound;
    var all, n := Pushed(h), |h.defers|;
    assert h.defers == all[..n];
    assert n == 2 ==> h.defers == [all[0], all[1]] && h.defers[..1] == [all[0]];
    assert n == 1 ==> h.defers == [all[0]] && h.defers[..0] == [];
  }

  predicate ReservesOrReleases(h: Handler, e: Event) {
    || (h.phase.Reserving? && e.ReserveAt?)
    || (h.phase.Returning? && e.Unwind? && h.defers != [] && h.defers[|h.defers| - 1] == ReleaseReservation)
  }

  lemma ObservePiece(h: Handler, l: P.Ledger, maxAge: int)
    requires Told(h) && P.Sound(l) && h.phase.Returning? && h.defers != [] && h.defers[|h.defers| - 1] == ObserveRecord
    ensures var (h', l') := Advance(h, l, maxAge, Unwind);
            && l' == l && h'.held == h.held && h'.record.decision == h.record.decision
            && (ReleaseReservation in h'.defers <==> ReleaseReservation in h.defers)
  {
    hide P.Sound, Deeds, Undone, Sensible;
    assert h.defers == h.defers[..|h.defers| - 1] + [ObserveRecord];
  }

  lemma OtherPiece(h: Handler, l: P.Ledger, maxAge: int, e: Event)
    requires Told(h) && P.Sound(l) && !ReservesOrReleases(h, e)
    ensures var (h', l') := Advance(h, l, maxAge, e);
            && l' == l && h'.held == h.held && h'.record.decision == h.record.decision
            && (ReleaseReservation in h'.defers <==> ReleaseReservation in h.defers)
  {
    if h.phase.Returning? && e.Unwind? && h.defers != [] {
      hide *;
      ObserveIsLast(h, e);
      ObservePiece(h, l, maxAge);
    } else {
      StarvedIsUndecided(h);
      hide P.Sound, Told, OnUnwind, OnReserve, OnCapacity, OnResponse, Ending, P.Step, P.ReserveStep;
      match (h.phase, e)
      case (Asking, CapacityAnswered(capacity)) => CapacityKeeps(h, capacity);
      case (Waiting, RoundTripped(response)) => ResponseKeeps(h, response);
      case _ =>
    }
  }

  lemma CapacityKeeps(h: Handler, capacity: Result<seq<P.Candidate>, CapacityFailure>)
    requires h.record.decision.None?
    ensures var h' := OnCapacity(h, capacity); h'.held == h.held && h'.record.decision.None? && h'.defers == h.defers
  {
  }

  lemma ResponseKeeps(h: Handler, response: Result<int, string>)
    requires h.progress.Sent?
    ensures var h' := OnResponse(h, response);
            h'.held == h.held && h'.record.decision == h.record.decision && h'.defers == h.defers
  {
  }

  lemma ObserveIsLast(h: Handler, e: Event)
    requires !ReservesOrReleases(h, e) && h.phase.Returning? && e.Unwind? && h.defers != []
    ensures h.defers[|h.defers| - 1] == ObserveRecord
  {
  }

  lemma StarvedIsUndecided(h: Handler)
    requires Told(h)
    ensures h.phase.Asking? || h.phase.Reserving? ==> h.record.decision.None?
    ensures h.phase.Waiting? ==> h.progress.Sent?
  {
  }

  lemma AdvanceKeepsPolicySound(h: Handler, l: P.Ledger, maxAge: int, e: Event)
    requires Told(h) && P.Sound(l)
    ensures P.Sound(Advance(h, l, maxAge, e).1)
  {
    hide P.Sound, P.Step, Told, OnCapacity, OnReserve, OnResponse, OnUnwind;
    match (h.phase, e)
    case (Reserving(candidates), ReserveAt(now)) => P.StepKeepsSound(l, maxAge, P.Action.Reserve(candidates, now));
    case (Returning, Unwind) =>
      if h.defers != [] && h.defers[|h.defers| - 1] == ReleaseReservation {
        ReleaseIsOfHeld(h);
        P.StepKeepsSound(l, maxAge, P.Action.Release(h.held.value));
      }
    case _ =>
  }

  lemma ReleaseIsOfHeld(h: Handler)
    requires Told(h) && ReleaseReservation in h.defers
    ensures h.held.Some?
  {
    assert ReleaseReservation in Pushed(h);
  }

  // ---- every move keeps the system sound ----

  lemma ArrivalKeepsSound(s: System, maxAge: int, kind: Kind, hooks: Hooks)
    requires Sound(s)
    ensures Sound(Next(s, maxAge, Arrive(kind, hooks)))
  {
    hide P.Sound;
    ArrivedIsTold(kind, hooks);
    forall a
      ensures Count(s.handlers + [Arrived(kind, hooks)], Charging(a)) == P.Unreleased(s.ledger.reservations, a)
    {
      CountOfAppend(s.handlers, Arrived(kind, hooks), Charging(a));
    }
  }

  lemma SetModeKeepsSound(s: System, maxAge: int, mode: string)
    requires Sound(s)
    ensures Sound(Next(s, maxAge, SetMode(mode)))
  {
    P.StepKeepsSound(s.ledger, maxAge, P.Action.Set(mode));
    hide P.Sound;
  }

  /** Counting the reservations and counting the handlers move together. */
  lemma CountsMoveTogether(s: System, k: nat, h': Handler, l': P.Ledger)
    requires Sound(s) && k < |s.handlers|
    requires var h := s.handlers[k];
             || (Holds(h) == Holds(h') && h.record.decision == h'.record.decision &&
                  l'.reservations == s.ledger.reservations)
             || (!Holds(h) && Holds(h') &&
                  l'.reservations == s.ledger.reservations + [P.Reservation(h'.record.decision.value, false)])
             || (&& Holds(h) && !Holds(h') && h.held.value < |s.ledger.reservations|
                 && s.ledger.reservations[h.held.value] == P.Reservation(h.record.decision.value, false)
                 && l'.reservations ==
                    s.ledger.reservations[h.held.value := P.Reservation(h.record.decision.value, true)])
    ensures forall a :: P.Unreleased(l'.reservations, a) == Count(s.handlers[k := h'], Charging(a))
  {
    var h, before := s.handlers[k], s.ledger.reservations;
    forall a
      ensures P.Unreleased(l'.reservations, a) == Count(s.handlers[k := h'], Charging(a))
    {
      assert P.Unreleased(before, a) == Count(s.handlers, Charging(a));
      CountOfUpdate(s.handlers, k, h', Charging(a));
      if !Holds(h) && Holds(h') {
        CountOfAppend(before, P.Reservation(h'.record.decision.value, false), P.Open(a));
      } else if Holds(h) && !Holds(h') {
        CountOfUpdate(before, h.held.value, P.Reservation(h.record.decision.value, true), P.Open(a));
      }
    }
  }

  lemma TurnKeepsSound(s: System, maxAge: int, k: nat, e: Event)
    requires Sound(s) && k < |s.handlers|
    ensures Sound(Next(s, maxAge, Turn(k, e)))
  {
    hide P.Sound, P.Step, P.Unreleased, Told, Advance, Charging, Count;
    var h, l := s.handlers[k], s.ledger;
    var (h', l') := Advance(h, l, maxAge, e);
    AdvanceKeepsTold(h, l, maxAge, e);
    AdvanceKeepsPolicySound(h, l, maxAge, e);
    HeldIsDecided(h);
    HeldIsDecided(h');
    if ReservesOrReleases(h, e) {
      if h.phase.Reserving? {
        ReservePiece(h, l, maxAge, h.phase.candidates, e.now);
        NotHeldYet(h);
      } else {
        ReleasePiece(h, l, maxAge);
      }
    } else {
      OtherPiece(h, l, maxAge, e);
    }
    CountsMoveTogether(s, k, h', l');
    forall j | 0 <= j < |s.handlers| && j != k
      ensures Told(s.handlers[j]) && Linked(l', s.handlers[j])
    {
      assert Linked(l, s.handlers[j]) && Told(s.handlers[j]);
      HeldIsDecided(s.handlers[j]);
    }
    var after := s.handlers[k := h'];
    forall i, j | 0 <= i < j < |after| && after[i].held.Some?
      ensures after[i].held != after[j].held
    {
      HeldIsDecided(s.handlers[i]);
      HeldIsDecided(s.handlers[j]);
    }
  }

  lemma HeldIsDecided(h: Handler)
    requires Told(h)
    ensures h.held.Some? == h.record.decision.Some?
  {
  }

  lemma NotHeldYet(h: Handler)
    requires Told(h) && h.phase.Reserving?
    ensures h.held.None?
  {
  }

  lemma NextKeepsSound(s: System, maxAge: int, m: Move)
    requires Sound(s)
    ensures Sound(Next(s, maxAge, m))
  {
    hide Sound;
    match m
    case Arrive(kind, hooks) => ArrivalKeepsSound(s, maxAge, kind, hooks);
    case SetMode(mode) => SetModeKeepsSound(s, maxAge, mode);
    case Turn(k, e) => if k < |s.handlers| { TurnKeepsSound(s, maxAge, k, e); }
  }

  lemma StartIsSound()
    ensures Sound(START)
  {
    P.IdleIsSound();
    assert P.Sound(START.ledger);
    hide P.Sound;
    forall a
      ensures P.Unreleased(START.ledger.reservations, a) == Count(START.handlers, Charging(a))
    {
    }
  }

  /** Any run from an idle policy and no requests. */
  function Run(maxAge: int, moves: seq<Move>): (s: System)
    ensures Sound(s)
  {
    if moves == [] then StartIsSound(); START
    else
      var s := Run(maxAge, moves[..|moves| - 1]);
      NextKeepsSound(s, maxAge, moves[|moves| - 1]);
      Next(s, maxAge, moves[|moves| - 1])
  }

  // ---- what every run guarantees ----

  function Times(trace: seq<Effect>, p: Effect -> bool): nat {
    Count(trace, p)
  }

  lemma {:induction false} TimesOfConcat(a: seq<Effect>, b: seq<Effect>, p: Effect -> bool)
    ensures Times(a + b, p) == Times(a, p) + Times(b, p)
  {
    if b == [] {
      assert a + b == a;
    } else {
      assert (a + b)[..|a + b| - 1] == a + b[..|b| - 1];
      TimesOfConcat(a, b[..|b| - 1], p);
    }
  }

  function One(p: Effect -> bool, e: Effect): nat {
    if p(e) then 1 else 0
  }

  lemma TimesOfOne(e: Effect, p: Effect -> bool)
    ensures Times([e], p) == One(p, e)
  {
    assert [e][..|[e]| - 1] == [];
    assert Count([e][..|[e]| - 1], p) == 0;
  }

  lemma TimesOfTwo(e: Effect, f: Effect, p: Effect -> bool)
    ensures Times([e, f], p) == One(p, e) + One(p, f)
  {
    assert [e, f] == [e] + [f];
    TimesOfConcat([e], [f], p);
    TimesOfOne(e, p);
    TimesOfOne(f, p);
  }

  lemma TimesInOpening(record: Record, p: Effect -> bool)
    ensures Times(Opening(record), p) ==
            if record.decision.None? then 0
            else One(p, Reserve(record.decision.value)) + One(p, AskCredentials(record.decision.value.accountId))
  {
    if record.decision.Some? {
      TimesOfTwo(Reserve(record.decision.value), AskCredentials(record.decision.value.accountId), p);
    }
  }

  /** What the deeds hold, apart from capacity questions: each kind of deed stands in its own place, once. */
  lemma TimesInDeeds(h: Handler, p: Effect -> bool)
    requires Told(h) && !p(AskCapacity) && forall a, c :: !p(Granted(a, c))
    ensures Times(Deeds(h), p) ==
            Times(Opening(h.record), p) +
            (match h.progress
             case Nothing => 0
             case Starved(record) => if h.kind.Inference? && h.hooks.observe then One(p, Observe(record)) else 0
             case Held => 0
             case Cleared(c) => 0
             case Sent(c) => One(p, Dispatch(c))
             case Taken(c, record) => One(p, Dispatch(c)) + (if h.hooks.accepted then One(p, Accept(record)) else 0))
  {
    var asks := if h.asked == 2 then [AskCapacity, AskCapacity] else [AskCapacity];
    TimesOfTwo(AskCapacity, AskCapacity, p);
    TimesOfOne(AskCapacity, p);
    hide Acts, Times, Told;
    TimesOfConcat(asks, Acts(h), p);
    TimesInActs(h, p);
  }

  lemma TimesInActs(h: Handler, p: Effect -> bool)
    requires Told(h) && forall a, c :: !p(Granted(a, c))
    ensures Times(Acts(h), p) ==
            Times(Opening(h.record), p) +
            (match h.progress
             case Nothing => 0
             case Starved(record) => if h.kind.Inference? && h.hooks.observe then One(p, Observe(record)) else 0
             case Held => 0
             case Cleared(c) => 0
             case Sent(c) => One(p, Dispatch(c))
             case Taken(c, record) => One(p, Dispatch(c)) + (if h.hooks.accepted then One(p, Accept(record)) else 0))
  {
    TimesInOpening(h.record, p);
    HeldIsDecided(h);
    UnheldHasNoOpening(h);
    hide Told, Times, Opening, Grant;
    match h.progress
    case Nothing =>
    case Starved(record) => TimesOfOne(Observe(record), p);
    case Held =>
    case Cleared(c) =>
      TimesOfConcat(Opening(h.record), Grant(h.record, c), p);
      NoGrants(h.record, c, p);
    case Sent(c) =>
      TimesInRest(h.record, c, [Dispatch(c)], Acts(h), p);
      TimesOfOne(Dispatch(c), p);
    case Taken(c, record) =>
      var tail := if h.hooks.accepted then [Dispatch(c), Accept(record)] else [Dispatch(c)];
      assert Acts(h) == Opening(h.record) + Grant(h.record, c) + tail;
      TimesInRest(h.record, c, tail, Acts(h), p);
      TimesOfTwo(Dispatch(c), Accept(record), p);
      TimesOfOne(Dispatch(c), p);
  }

  lemma UnheldHasNoOpening(h: Handler)
    requires Told(h)
    ensures h.progress.Nothing? || h.progress.Starved? ==> h.record.decision.None? && forall p :: Times([], p) == 0
  {
  }

  lemma NoGrants(record: Record, c: Credentials, p: Effect -> bool)
    requires forall a, d :: !p(Granted(a, d))
    ensures Times(Grant(record, c), p) == 0
  {
    if record.decision.Some? {
      TimesOfOne(Granted(record.decision.value.accountId, c), p);
    }
  }

  lemma TimesInRest(record: Record, c: Credentials, tail: seq<Effect>, rest: seq<Effect>, p: Effect -> bool)
    requires rest == Opening(record) + Grant(record, c) + tail && forall a, d :: !p(Granted(a, d))
    ensures Times(rest, p) == Times(Opening(record), p) + Times(tail, p)
  {
    TimesOfConcat(Opening(record) + Grant(record, c), tail, p);
    TimesOfConcat(Opening(record), Grant(record, c), p);
    NoGrants(record, c, p);
  }

  lemma TimesInUndone(h: Handler, p: Effect -> bool)
    requires Told(h)
    ensures Times(Undone(h), p) ==
            (if ObserveRecord in Pushed(h) && ObserveRecord !in h.defers && h.hooks.observe then
              One(p, Observe(h.record)) else 0) +
            (if h.held.Some? && ReleaseReservation !in h.defers then One(p, Release(h.held.value)) else 0)
  {
    var observed := if ObserveRecord in Pushed(h) && ObserveRecord !in h.defers && h.hooks.observe then
      [Observe(h.record)] else [];
    var released := if h.held.Some? && ReleaseReservation !in h.defers then [Release(h.held.value)] else [];
    TimesOfConcat(observed, released, p);
    TimesOfConcat(released, observed, p);
    TimesOfOne(Observe(h.record), p);
    if h.held.Some? {
      TimesOfOne(Release(h.held.value), p);
    }
  }

  const RESERVES := (e: Effect) => e.Reserve?
  const DISPATCHES := (e: Effect) => e.Dispatch?
  const ACCEPTS := (e: Effect) => e.Accept?
  const OBSERVES := (e: Effect) => e.Observe?
  const RELEASES := (e: Effect) => e.Release?

  /**
    Whatever the interleaving and the answers, a handler sends at most one request upstream, and none without a
    reservation; it announces at most one acceptance, and only of a request it sent; it observes and releases at most
    once.
  */
  lemma SpendsAtMostOnce(maxAge: int, moves: seq<Move>, k: nat)
    requires k < |Run(maxAge, moves).handlers|
    ensures var h := Run(maxAge, moves).handlers[k];
            && Times(h.trace, ACCEPTS) <= Times(h.trace, DISPATCHES) <= Times(h.trace, RESERVES) <= 1
            && Times(h.trace, RELEASES) <= Times(h.trace, RESERVES)
            && Times(h.trace, OBSERVES) <= (if h.hooks.observe then 1 else 0)
  {
    var h := Run(maxAge, moves).handlers[k];
    CountsInTrace(h);
  }

  lemma CountsInTrace(h: Handler)
    requires Told(h)
    ensures Times(h.trace, RESERVES) == (if h.held.Some? then 1 else 0)
    ensures Times(h.trace, DISPATCHES) == (if h.progress.Sent? || h.progress.Taken? then 1 else 0)
    ensures Times(h.trace, ACCEPTS) == (if h.progress.Taken? && h.hooks.accepted then 1 else 0)
    ensures Times(h.trace, RELEASES) == (if h.held.Some? && ReleaseReservation !in h.defers then 1 else 0)
    ensures Times(h.trace, OBSERVES) ==
            if !h.hooks.observe then 0
            else if h.kind.Inference? && h.progress.Starved? then 1
            else if ObserveRecord in Pushed(h) && ObserveRecord !in h.defers then 1 else 0
  {
    hide Deeds, Undone, Times;
    TraceCount(h, RESERVES);
    TraceCount(h, DISPATCHES);
    TraceCount(h, ACCEPTS);
    TraceCount(h, RELEASES);
    TraceCount(h, OBSERVES);
  }

  lemma TraceCount(h: Handler, p: Effect -> bool)
    requires Told(h) && !p(AskCapacity) && forall a, c :: !p(Granted(a, c))
    ensures Times(h.trace, p) ==
            (if h.record.decision.None? then 0
             else
               var decision := h.record.decision.value;
               One(p, Reserve(decision)) + One(p, AskCredentials(decision.accountId))) +
            (match h.progress
             case Nothing => 0
             case Starved(record) => if h.kind.Inference? && h.hooks.observe then One(p, Observe(record)) else 0
             case Held => 0
             case Cleared(c) => 0
             case Sent(c) => One(p, Dispatch(c))
             case Taken(c, record) => One(p, Dispatch(c)) + (if h.hooks.accepted then One(p, Accept(record)) else 0)) +
            (if ObserveRecord in Pushed(h) && ObserveRecord !in h.defers && h.hooks.observe then
              One(p, Observe(h.record)) else 0) +
            (if h.held.Some? && ReleaseReservation !in h.defers then One(p, Release(h.held.value)) else 0)
  {
    TimesOfConcat(Deeds(h), Undone(h), p);
    TimesInDeeds(h, p);
    TimesInUndone(h, p);
    TimesInOpening(h.record, p);
  }

  /**
    When a handler has ended: every reservation was released, exactly once; a voice call was observed exactly once
    however it ended, an inference exactly when it held a reservation or found no capacity; and the observed outcome
    says truly whether anything was sent and whether it was taken.
  */
  lemma EndedHandlersAreSettled(maxAge: int, moves: seq<Move>, k: nat)
    requires k < |Run(maxAge, moves).handlers| && Ended(Run(maxAge, moves).handlers[k])
    ensures var h := Run(maxAge, moves).handlers[k];
            && Times(h.trace, RELEASES) == Times(h.trace, RESERVES)
            && Times(h.trace, OBSERVES) ==
                 (if h.hooks.observe && (h.kind.Voice? || h.held.Some? || h.progress.Starved?) then 1 else 0)
            && (h.record.outcome == NotSent <==> Times(h.trace, DISPATCHES) == 0)
            && (h.hooks.accepted ==>
                  (Times(h.trace, ACCEPTS) == 1 <==> h.record.outcome !in {NotSent, DeliveryUnknown, UpstreamRejected}))
            && (Observe(h.record) in h.trace || !h.hooks.observe || (h.kind.Inference? && h.held.None?))
            && h.record.outcome != Accepted
  {
    var h := Run(maxAge, moves).handlers[k];
    CountsInTrace(h);
    EndedFacts(h);
    hide Told, Run, Pushed;
  }

  lemma EndedFacts(h: Handler)
    requires Told(h) && Ended(h)
    ensures ObserveRecord in Pushed(h) <==> h.kind.Voice? || h.held.Some?
    ensures h.hooks.observe && (h.kind.Voice? || h.held.Some?) ==> Observe(h.record) in h.trace
    ensures h.held.Some? ==> !h.progress.Starved?
    ensures h.record.outcome == NotSent <==> !h.progress.Sent? && !h.progress.Taken?
    ensures h.progress.Taken? <==> h.record.outcome !in {NotSent, DeliveryUnknown, UpstreamRejected}
    ensures h.record.outcome != Accepted
  {
    hide Deeds;
    if h.hooks.observe && (h.kind.Voice? || h.held.Some?) {
      assert Observe(h.record) in Undone(h);
    }
  }

  /**
    A request goes out with the credentials granted for the account just reserved, after the reservation and before its
    release; acceptance, when announced, is of a 2xx answer and comes right after the sending.
  */
  lemma DispatchIsCovered(maxAge: int, moves: seq<Move>, k: nat, i: nat)
    requires k < |Run(maxAge, moves).handlers| && i < |Run(maxAge, moves).handlers[k].trace|
    ensures Covered(Run(maxAge, moves).handlers[k].trace, i)
  {
    var h := Run(maxAge, moves).handlers[k];
    hide Run, Covered;
    TraceIsCovered(h, i);
  }

  ghost predicate Covered(trace: seq<Effect>, i: nat)
    requires i < |trace|
  {
    && (trace[i].Dispatch? ==>
          && i >= 3 && trace[i - 3].Reserve?
          && trace[i - 1] == Granted(trace[i - 3].decision.accountId, trace[i].credentials)
          && Usable(Some(trace[i].credentials))
          && forall j :: 0 <= j <= i ==> !trace[j].Release?)
    && (trace[i].Accept? ==>
          && i >= 1 && trace[i - 1].Dispatch? && 200 <= trace[i].record.status < 300
          && forall j :: 0 <= j <= i ==> !trace[j].Release? && !trace[j].Observe?)
  }

  lemma TraceIsCovered(h: Handler, i: nat)
    requires Told(h) && i < |h.trace|
    ensures Covered(h.trace, i)
  {
    hide Told;
    TraceInParts(h);
    var n := |Deeds(h)|;
    if h.trace[i].Dispatch? || h.trace[i].Accept? {
      NothingSentOtherwise(h);
      assert i < n;
      assert h.trace[i] == Deeds(h)[i];
      SentDeeds(h);
      hide Deeds, Undone;
      assert forall j :: 0 <= j <= i ==> h.trace[j] == Deeds(h)[j];
    }
  }

  lemma TraceInParts(h: Handler)
    requires Told(h)
    ensures h.trace == Deeds(h) + Undone(h)
    ensures h.progress.Sent? || h.progress.Taken? ==> Usable(Some(h.progress.credentials)) && h.record.decision.Some?
    ensures h.progress.Taken? ==> 200 <= h.progress.record.status < 300
  {
  }

  lemma NothingSentOtherwise(h: Handler)
    ensures (exists e :: e in Deeds(h) && (e.Dispatch? || e.Accept?)) ==> h.progress.Sent? || h.progress.Taken?
  {
  }

  lemma SentDeeds(h: Handler)
    requires (h.progress.Sent? || h.progress.Taken?) && h.record.decision.Some?
    ensures var deeds, d, c := Deeds(h), h.record.decision.value, h.progress.credentials;
            var m := if h.asked == 2 then 2 else 1;
            && m + 4 <= |deeds| <= m + 5 && deeds[m] == Reserve(d) && deeds[m + 2] == Granted(d.accountId, c) &&
                 deeds[m + 3] == Dispatch(c)
            && (forall j :: 0 <= j < |deeds| ==> !deeds[j].Release? && !deeds[j].Observe?)
            && (forall j :: 0 <= j < |deeds| && deeds[j].Dispatch? ==> j == m + 3)
            && (forall j :: 0 <= j < |deeds| && deeds[j].Accept? ==>
                 j == m + 4 && h.progress.Taken? && deeds[j].record == h.progress.record)
  {
    var d, c := h.record.decision.value, h.progress.credentials;
    var accepted := if h.progress.Taken? && h.hooks.accepted then [Accept(h.progress.record)] else [];
    var sent := [Reserve(d), AskCredentials(d.accountId), Granted(d.accountId, c), Dispatch(c)];
    var asks := if h.asked == 2 then [AskCapacity, AskCapacity] else [AskCapacity];
    assert Deeds(h) == asks + sent + accepted;
  }

  /** The policy's count of an account is the number of handlers between reserving it and releasing it. */
  lemma InflightIsTheHandlers(maxAge: int, moves: seq<Move>, account: string)
    ensures Load(Run(maxAge, moves).ledger.policy.inflight, account) ==
              Count(Run(maxAge, moves).handlers, Charging(account))
  {
    var s := Run(maxAge, moves);
    assert P.Unreleased(s.ledger.reservations, account) == Count(s.handlers, Charging(account));
  }

  /** When every handler has ended, no account is charged any more. */
  lemma QuietMeansIdle(maxAge: int, moves: seq<Move>)
    requires forall k :: 0 <= k < |Run(maxAge, moves).handlers| ==> Ended(Run(maxAge, moves).handlers[k])
    ensures Run(maxAge, moves).ledger.policy.inflight == map[]
  {
    var s := Run(maxAge, moves);
    forall a
      ensures a !in s.ledger.policy.inflight
    {
      NoneCharging(s.handlers, a);
      InflightIsTheHandlers(maxAge, moves, a);
      assert P.Counted(s.ledger.policy.inflight);
    }
  }

  lemma {:induction false} NoneCharging(handlers: seq<Handler>, account: string)
    requires forall k :: 0 <= k < |handlers| ==> Ended(handlers[k])
    ensures Count(handlers, Charging(account)) == 0
  {
    if handlers != [] {
      NoneCharging(handlers[..|handlers| - 1], account);
    }
  }
}
