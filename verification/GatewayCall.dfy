/**
  The handler as the source runs it: local variables that change piece by piece, a stack of deferred actions, and the
  policy it shares with other handlers. Every piece is proved to be the step `Gateway.Advance` describes.
*/
module GatewayCall {
  import opened Common
  import opened Gateway
  import P = SpendPolicy

  class Call {
    const policy: P.Policy
    const kind: Kind
    const hooks: Hooks
    var phase: Phase
    var asked: nat
    var record: Record
    var defers: seq<Deferred>
    var release: P.Release?
    ghost var progress: Progress
    ghost var held: Option<nat>
    ghost var trace: seq<Effect>

    ghost function Value(): Handler
      reads this
    {
      Handler(kind, hooks, phase, asked, progress, record, held, defers, trace)
    }

    ghost predicate Valid()
      reads this, policy, release
    {
      && policy.Valid() && Told(Value())
      && (held.Some? ==>
            && release != null && release.policy == policy && release.index == held.value && release.Valid()
            && (release.done <==> ReleaseReservation !in defers))
    }

    /** The call has taken the step that Advance describes for e. */
    twostate predicate Took(e: Event)
      requires old(Valid())
      reads this, policy
    {
      (Value(), policy.ledger) == Advance(old(Value()), old(policy.ledger), policy.maxAge, e)
    }

    constructor (policy: P.Policy, kind: Kind, hooks: Hooks)
      requires policy.Valid()
      ensures Valid() && Value() == Arrived(kind, hooks) && this.policy == policy
    {
      this.policy, this.kind, this.hooks := policy, kind, hooks;
      phase, asked, record, progress, held, release := Asking, 1, BLANK, Nothing, None, null;
      defers := if kind.Voice? then [ObserveRecord] else [];
      trace := [AskCapacity];
      new;
      ArrivedIsTold(kind, hooks);
    }

    method Capacity(answer: Result<seq<P.Candidate>, CapacityFailure>)
      requires Valid() && phase.Asking?
      modifies this
      ensures Valid() && Took(CapacityAnswered(answer))
    {
      AdvanceKeepsTold(Value(), policy.ledger, policy.maxAge, CapacityAnswered(answer));
      hide Told, P.Policy.Valid;
      match answer
      case Ok(candidates) =>
        phase := Reserving(candidates);
      case Err(failure) =>
        if failure.deadline && failure.alive && asked == 1 {
          asked, trace := 2, trace + [AskCapacity];
          return;
        }
        if kind.Voice? {
          record := record.(failureKind := "capacity-" + failure.kind);
          progress := Starved(record);
        } else {
          var failed := Record(None, 503, NotSent, "capacity-" + failure.kind);
          progress := Starved(failed);
          if hooks.observe {
            trace := trace + [Observe(failed)];
          }
        }
        phase := Returning;
    }

    method Reserve(now: int)
      requires Valid() && phase.Reserving?
      modifies this, policy
      ensures Valid() && Took(ReserveAt(now))
    {
      hide Told, P.Sound, P.ReserveStep, P.Step, Advance, P.Counted;
      AdvanceKeepsTold(Value(), policy.ledger, policy.maxAge, ReserveAt(now));
      NotYetHeld(Value());
      ReserveUnfolds(Value(), policy.ledger, policy.maxAge, now);
      SoundIsCounted(policy.ledger);
      ghost var before := policy.ledger;
      var reserved := policy.Reserve(phase.candidates, now);
      match reserved
      case Err(_) =>
        phase := Returning;
      case Ok((decision, closure)) =>
        release := closure;
        record := record.(decision := Some(decision));
        defers := defers + (if kind.Voice? then [ReleaseReservation] else [ReleaseReservation, ObserveRecord]);
        progress, held := Held, Some(|before.reservations|);
        trace := trace + [Effect.Reserve(decision), AskCredentials(decision.accountId)];
        phase := Crediting;
    }

    method CheckCredentials(answer: Option<Credentials>)
      requires Valid() && phase.Crediting?
      modifies this
      ensures Valid() && Took(CredentialsAnswered(answer))
    {
      AdvanceKeepsTold(Value(), policy.ledger, policy.maxAge, CredentialsAnswered(answer));
      CredentialsUnfold(Value(), policy.ledger, policy.maxAge, answer);
      hide Told, P.Policy.Valid, Advance;
      if answer.None? || answer.value.bearer == "" || answer.value.accountId == "" {
        phase := Returning;
        return;
      }
      trace := trace + [Granted(record.decision.value.accountId, answer.value)];
      phase, progress := Building(answer.value), Cleared(answer.value);
    }

    method Send(built: bool)
      requires Valid() && phase.Building?
      modifies this
      ensures Valid() && Took(RequestBuilt(built))
    {
      AdvanceKeepsTold(Value(), policy.ledger, policy.maxAge, RequestBuilt(built));
      RequestUnfolds(Value(), policy.ledger, policy.maxAge, built);
      hide Told, P.Policy.Valid, Advance;
      if !built {
        phase := Returning;
        return;
      }
      trace := trace + [Dispatch(phase.credentials)];
      progress := Sent(phase.credentials);
      phase := Waiting;
    }

    method Respond(response: Result<int, string>)
      requires Valid() && phase.Waiting?
      modifies this
      ensures Valid() && Took(RoundTripped(response))
    {
      hide Told, Advance;
      AdvanceKeepsTold(Value(), policy.ledger, policy.maxAge, RoundTripped(response));
      ResponseUnfolds(Value(), policy.ledger, policy.maxAge, response);
      hide P.Policy.Valid;
      match response
      case Err(failure) =>
        record := record.(outcome := DeliveryUnknown, failureKind := failure);
        phase := Returning;
      case Ok(status) =>
        record := record.(status := status);
        if status < 200 || status >= 300 {
          record := record.(outcome := UpstreamRejected);
          phase := Returning;
          return;
        }
        var accepted := record.(outcome := Accepted);
        progress := Taken(progress.credentials, accepted);
        if hooks.accepted {
          trace := trace + [Accept(accepted)];
        }
        phase := Reading;
    }

    method Finish(body: Body)
      requires Valid() && phase.Reading?
      modifies this
      ensures Valid() && Took(BodyRead(body))
      ensures phase == Returning && DecidedBy(record, kind, body)
      ensures record.decision == old(record.decision) && record.status == old(record.status)
    {
      AdvanceKeepsTold(Value(), policy.ledger, policy.maxAge, BodyRead(body));
      FinishUnfolds(Value(), policy.ledger, policy.maxAge, body);
      hide Told, P.Policy.Valid, Advance, Ending;
      var (outcome, failure) := Ending(kind, body);
      record := record.(outcome := outcome, failureKind := failure);
      phase := Returning;
      EndingDecides(record, kind, body);
    }

    /** The last deferred action not yet run. */
    method RunDeferred()
      requires Valid() && phase.Returning? && defers != []
      modifies this, policy, release
      ensures Valid() && Took(Unwind)
    {
      AdvanceKeepsTold(Value(), policy.ledger, policy.maxAge, Unwind);
      UnwindUnfolds(Value(), policy.ledger, policy.maxAge);
      EachDeferredOnce(Value());
      hide Told, P.Sound, P.Step, Advance;
      var last := defers[|defers| - 1];
      match last
      case ReleaseReservation => RunRelease();
      case ObserveRecord => RunObserve();
    }

    method RunRelease()
      requires Valid() && phase.Returning? && defers != [] && defers[|defers| - 1] == ReleaseReservation
      requires held.Some? && ReleaseReservation !in defers[..|defers| - 1]
      requires var rest := defers[..|defers| - 1];
               Told(Value().(defers := rest, trace := trace + [Effect.Release(held.value)]))
      modifies this, policy, release
      ensures Valid() && policy.ledger == P.Step(old(policy.ledger), policy.maxAge, P.Action.Release(old(held.value)))
      ensures var rest := old(defers)[..|old(defers)| - 1];
              Value() == old(Value()).(defers := rest, trace := old(trace) + [Effect.Release(old(held.value))])
    {
      hide Told, P.Sound, P.Step;
      defers := defers[..|defers| - 1];
      release.Call();
      trace := trace + [Effect.Release(held.value)];
    }

    method RunObserve()
      requires Valid() && phase.Returning? && defers != []
      requires ReleaseReservation in defers <==> ReleaseReservation in defers[..|defers| - 1]
      requires var rest := defers[..|defers| - 1];
               Told(Value().(defers := rest, trace := if hooks.observe then trace + [Observe(record)] else trace))
      modifies this
      ensures Valid()
      ensures var rest := old(defers)[..|old(defers)| - 1];
              Value() == old(Value()).(defers := rest, trace := if hooks.observe then
                old(trace) + [Observe(record)] else old(trace))
    {
      hide Told, P.Policy.Valid;
      defers := defers[..|defers| - 1];
      if hooks.observe {
        trace := trace + [Observe(record)];
      }
    }
  }

  lemma SoundIsCounted(l: P.Ledger)
    requires P.Sound(l)
    ensures P.Counted(l.policy.inflight)
  {
  }

  lemma ReserveUnfolds(h: Handler, l: P.Ledger, maxAge: int, now: int)
    requires Told(h) && P.Sound(l) && h.phase.Reserving?
    ensures Advance(h, l, maxAge, ReserveAt(now)) ==
            (OnReserve(h, l, P.ReserveStep(l.policy, maxAge, h.phase.candidates, now)),
             P.Step(l, maxAge, P.Action.Reserve(h.phase.candidates, now)))
  {
  }

  lemma FinishUnfolds(h: Handler, l: P.Ledger, maxAge: int, body: Body)
    requires Told(h) && P.Sound(l) && h.phase.Reading?
    ensures var (outcome, failure) := Ending(h.kind, body);
            Advance(h, l, maxAge, BodyRead(body)) ==
            (h.(phase := Returning, record := h.record.(outcome := outcome, failureKind := failure)), l)
  {
  }

  lemma NotYetHeld(h: Handler)
    requires Told(h) && h.phase.Reserving?
    ensures h.held.None?
  {
  }

  lemma CredentialsUnfold(h: Handler, l: P.Ledger, maxAge: int, answer: Option<Credentials>)
    requires Told(h) && P.Sound(l) && h.phase.Crediting?
    ensures h.record.decision.Some?
    ensures Advance(h, l, maxAge, CredentialsAnswered(answer)) ==
            (if Usable(answer) then
               h.(phase := Building(answer.value), progress := Cleared(answer.value),
                  trace := h.trace + [Granted(h.record.decision.value.accountId, answer.value)])
             else h.(phase := Returning), l)
  {
  }

  lemma RequestUnfolds(h: Handler, l: P.Ledger, maxAge: int, ok: bool)
    requires Told(h) && P.Sound(l) && h.phase.Building?
    ensures var c := h.phase.credentials;
            Advance(h, l, maxAge, RequestBuilt(ok)) ==
            (if ok then h.(phase := Waiting, progress := Sent(c), trace := h.trace + [Dispatch(c)])
             else h.(phase := Returning), l)
  {
  }

  lemma ResponseUnfolds(h: Handler, l: P.Ledger, maxAge: int, response: Result<int, string>)
    requires Told(h) && P.Sound(l) && h.phase.Waiting?
    ensures h.progress.Sent? && Advance(h, l, maxAge, RoundTripped(response)) == (OnResponse(h, response), l)
  {
  }

  lemma UnwindUnfolds(h: Handler, l: P.Ledger, maxAge: int)
    requires Told(h) && P.Sound(l) && h.phase.Returning? && h.defers != []
    ensures var last, rest := h.defers[|h.defers| - 1], h.defers[..|h.defers| - 1];
            && (last == ReleaseReservation ==> h.held.Some?)
            && Advance(h, l, maxAge, Unwind) ==
               if last == ReleaseReservation then
                 (h.(defers := rest, trace := h.trace + [Effect.Release(h.held.value)]),
                  P.Step(l, maxAge, P.Action.Release(h.held.value)))
               else (h.(defers := rest, trace := if h.hooks.observe then h.trace + [Observe(h.record)] else h.trace), l)
  {
    hide P.Sound, P.Step, Deeds, Undone, Sensible;
    DefersShrink(h);
  }

  lemma EachDeferredOnce(h: Handler)
    requires Told(h) && h.defers != []
    ensures var rest := h.defers[..|h.defers| - 1];
            && h.defers[|h.defers| - 1] !in rest
            && (forall d :: d in h.defers <==> d in rest || d == h.defers[|h.defers| - 1])
            && (ReleaseReservation in h.defers ==> h.held.Some?)
  {
    DefersShrink(h);
    PushedAreTwo(h);
    hide Told, Pushed;
    var n := |h.defers|;
    if n == 1 {
      assert h.defers[..n - 1] == [];
    } else {
      assert h.defers[..n - 1] == [h.defers[0]];
    }
  }

  lemma PushedAreTwo(h: Handler)
    ensures |Pushed(h)| <= 2 && (|Pushed(h)| == 2 ==> Pushed(h)[0] != Pushed(h)[1])
  {
  }
}
