/**
  Matching an app-server's responses to the requests waiting for them: Request, readLoop, waitLoop and removePending of
  internal/backend/child.go.

  A caller draws a number, enters its channel in the table, sends, and waits; the reader takes a channel out of the
  table and then, without the table's mutex, pushes to it; when the process exits, the drain pushes to every channel
  left while it holds the mutex throughout. Every channel has room for one response.
*/
module ChildResponses {
  import opened Common
  import Text

  datatype Response = Message(id: string, text: string) | Exited

  datatype Phase = Numbered | Sending | Awaiting | Removing | Returned(result: Option<Response>)

  /** A caller with its channel; pushes counts everything ever pushed to it. */
  datatype Caller = Caller(phase: Phase, channel: Option<Response>, pushes: nat)

  datatype Process = Running | Closed | Draining | Drained

  datatype Hand = Empty | Taken(caller: nat, response: Response)

  /** hand is the channel the reader has taken out of the table and not yet pushed to. */
  datatype State = State(callers: seq<Caller>, pending: map<string, nat>, hand: Hand, process: Process)

  datatype Action =
    | Draw
    | Insert(c: nat)
    | Sent(c: nat, ok: bool)
    | Receive(c: nat)
    | GiveUp(c: nat)
    | Remove(c: nat)
    | Take(id: string, text: string)
    | Push
    | Exit
    | StartDrain
    | Drain(id: string)
    | EndDrain

  const START := State([], map[], Empty, Running)

  /** The id of caller c, whose sequence number is c + 1. */
  function IdOf(c: nat): string {
    "\"__codex_mux_" + Text.Decimal(c + 1) + "\""
  }

  lemma IdsAreDistinct(c: nat, d: nat)
    requires IdOf(c) == IdOf(d)
    ensures c == d
  {
    var x, y := Text.Decimal(c + 1), Text.Decimal(d + 1);
    assert x == IdOf(c)[13..|IdOf(c)| - 1] && y == IdOf(d)[13..|IdOf(d)| - 1];
    Text.DecimalIsInjective(c + 1, d + 1);
  }

  /** An id is a JSON string that holds the caller's sequence number, which starts at 1. */
  lemma IdTellsNumber(c: nat)
    requires c < Text.MAX_INT64
    ensures var id := IdOf(c);
            && |id| >= 14 && id[..13] == "\"__codex_mux_" && id[|id| - 1] == '\"'
            && Text.Atoi(id[13..|id| - 1]) == Some(c + 1)
  {
    var id, digits := IdOf(c), Text.Decimal(c + 1);
    assert id == "\"__codex_mux_" + digits + "\"";
    assert id[13..|id| - 1] == digits;
    Text.AtoiReadsDecimal(c + 1);
  }

  // ---- one step ----

  function Go(s: State, c: nat, phase: Phase): State
    requires c < |s.callers|
  {
    s.(callers := s.callers[c := s.callers[c].(phase := phase)])
  }

  /** Sending on a channel that still holds a response would block. */
  predicate Blocks(s: State, c: nat) {
    c < |s.callers| && s.callers[c].channel.Some?
  }

  function PushTo(s: State, c: nat, r: Response): State
    requires c < |s.callers|
  {
    s.(callers := s.callers[c := s.callers[c].(channel := Some(r), pushes := s.callers[c].pushes + 1)])
  }

  predicate In(s: State, c: nat, phase: Phase) {
    c < |s.callers| && s.callers[c].phase == phase
  }

  /** While the drain holds the mutex, whoever needs it waits. */
  function Step(s: State, a: Action): State {
    match a
    case Draw => s.(callers := s.callers + [Caller(Numbered, None, 0)])
    case Insert(c) =>
      if In(s, c, Numbered) && s.process != Draining then Go(s, c, Sending).(pending := s.pending[IdOf(c) := c]) else s
    case Sent(c, ok) => if In(s, c, Sending) then Go(s, c, if ok then Awaiting else Removing) else s
    case Receive(c) =>
      if In(s, c, Awaiting) && s.callers[c].channel.Some? then
        s.(callers := s.callers[c := Caller(Returned(s.callers[c].channel), None, s.callers[c].pushes)])
      else s
    case GiveUp(c) => if In(s, c, Awaiting) then Go(s, c, Removing) else s
    case Remove(c) =>
      if In(s, c, Removing) && s.process != Draining then
        Go(s, c, Returned(None)).(pending := s.pending - {IdOf(c)}) else s
    case Take(id, text) =>
      if id in s.pending && s.hand.Empty? && s.process != Draining then
        s.(pending := s.pending - {id}, hand := Taken(s.pending[id], Message(id, text)))
      else s
    case Push =>
      if s.hand.Taken? && s.hand.caller < |s.callers| && !Blocks(s, s.hand.caller) then
        PushTo(s, s.hand.caller, s.hand.response).(hand := Empty)
      else s
    case Exit => if s.process == Running then s.(process := Closed) else s
    case StartDrain => if s.process == Closed then s.(process := Draining) else s
    case Drain(id) =>
      if s.process == Draining && id in s.pending && s.pending[id] < |s.callers| && !Blocks(s, s.pending[id]) then
        PushTo(s, s.pending[id], Exited).(pending := s.pending - {id})
      else s
    case EndDrain => if s.process == Draining && s.pending == map[] then s.(process := Drained) else s
  }

  // ---- what every interleaving keeps ----

  predicate OwnId(c: nat, r: Response) {
    r.Message? ==> r.id == IdOf(c)
  }

  /** Nothing has been pushed to c and its channel is empty. */
  predicate Untouched(s: State, c: nat) {
    c < |s.callers| && s.callers[c].pushes == 0 && s.callers[c].channel.None?
  }

  predicate CallerIsSound(s: State, c: nat)
    requires c < |s.callers|
  {
    var q := s.callers[c];
    && q.pushes <= 1
    && (q.channel.Some? ==> q.pushes == 1 && OwnId(c, q.channel.value))
    && (q.phase.Numbered? ==> q.pushes == 0 && IdOf(c) !in s.pending && (s.hand.Taken? ==> s.hand.caller != c))
    && (q.phase.Returned? && q.phase.result.Some? ==> OwnId(c, q.phase.result.value))
    && (q.phase.Returned? ==> IdOf(c) !in s.pending)
    && (q.phase.Sending? || q.phase.Awaiting? ==>
          IdOf(c) in s.pending || (s.hand.Taken? && s.hand.caller == c) || q.channel.Some?)
  }

  ghost predicate Sound(s: State) {
    && (forall c :: 0 <= c < |s.callers| ==> CallerIsSound(s, c))
    && (forall id :: id in s.pending ==> id == IdOf(s.pending[id]) && Untouched(s, s.pending[id]))
    && (s.hand.Taken? ==> Untouched(s, s.hand.caller) && OwnId(s.hand.caller, s.hand.response))
    && (s.hand.Taken? ==> IdOf(s.hand.caller) !in s.pending)
  }

  /**
    Other callers are unaffected by a step that keeps their record, their table entry and the reader's hand on them.
  */
  lemma OthersAreSound(s: State, s': State, c: nat)
    requires c < |s.callers| && c < |s'.callers| && CallerIsSound(s, c) && s'.callers[c] == s.callers[c]
    requires IdOf(c) in s.pending <==> IdOf(c) in s'.pending
    requires (s.hand.Taken? && s.hand.caller == c) <==> (s'.hand.Taken? && s'.hand.caller == c)
    ensures CallerIsSound(s', c)
  {
  }

  /** A step that concerns the caller c alone. */
  ghost predicate Concerns(s: State, s': State, c: nat) {
    && c < |s'.callers| && (|s'.callers| == |s.callers| || (c == |s.callers| && |s'.callers| == c + 1))
    && (forall d :: 0 <= d < |s.callers| && d != c ==> s'.callers[d] == s.callers[d])
    && (forall id :: id != IdOf(c) ==> (id in s.pending <==> id in s'.pending))
    && (forall id :: id != IdOf(c) && id in s.pending ==> s'.pending[id] == s.pending[id])
    && (s.hand != s'.hand ==> (s.hand.Taken? ==> s.hand.caller == c) && (s'.hand.Taken? ==> s'.hand.caller == c))
  }

  lemma ConcerningOneKeepsSound(s: State, s': State, c: nat)
    requires Sound(s) && Concerns(s, s', c) && CallerIsSound(s', c)
    requires IdOf(c) in s'.pending ==> s'.pending[IdOf(c)] == c && Untouched(s', c)
    requires s'.hand.Taken? && s'.hand.caller == c ==>
               Untouched(s', c) && OwnId(c, s'.hand.response) && IdOf(c) !in s'.pending
    ensures Sound(s')
  {
    forall d | 0 <= d < |s'.callers|
      ensures CallerIsSound(s', d)
    {
      if d != c {
        if IdOf(d) == IdOf(c) {
          IdsAreDistinct(d, c);
        }
        hide IdOf;
        OthersAreSound(s, s', d);
      }
    }
    hide CallerIsSound, IdOf;
    if s'.hand.Taken? && s'.hand.caller != c && IdOf(s'.hand.caller) == IdOf(c) {
      IdsAreDistinct(s'.hand.caller, c);
    }
  }

  lemma OwnEntry(s: State, c: nat)
    requires Sound(s) && c < |s.callers|
    ensures CallerIsSound(s, c)
    ensures IdOf(c) in s.pending ==> s.pending[IdOf(c)] == c && Untouched(s, c)
    ensures s.hand.Taken? && s.hand.caller == c ==>
              Untouched(s, c) && OwnId(c, s.hand.response) && IdOf(c) !in s.pending
  {
    if IdOf(c) in s.pending {
      IdsAreDistinct(c, s.pending[IdOf(c)]);
    }
  }

  lemma CallerStepKeepsSound(s: State, c: nat, a: Action)
    requires Sound(s) && c < |s.callers|
    requires a == Insert(c) || a == Sent(c, true) || a == Sent(c, false) || a == Receive(c) || a == GiveUp(c) ||
               a == Remove(c)
    ensures Sound(Step(s, a))
  {
    hide Sound, IdOf;
    var s' := Step(s, a);
    if s' != s {
      OwnEntry(s, c);
      ConcerningOneKeepsSound(s, s', c);
    }
  }

  lemma DrawKeepsSound(s: State)
    requires Sound(s)
    ensures Sound(Step(s, Draw))
  {
    var c := |s.callers|;
    if IdOf(c) in s.pending {
      IdsAreDistinct(c, s.pending[IdOf(c)]);
    }
    hide IdOf;
    ConcerningOneKeepsSound(s, Step(s, Draw), c);
  }

  lemma TakeKeepsSound(s: State, id: string, text: string)
    requires Sound(s) && id in s.pending && s.hand.Empty? && s.process != Draining
    ensures Sound(Step(s, Take(id, text)))
  {
    assert CallerIsSound(s, s.pending[id]);
    hide IdOf;
    ConcerningOneKeepsSound(s, Step(s, Take(id, text)), s.pending[id]);
  }

  lemma PushKeepsSound(s: State)
    requires Sound(s) && s.hand.Taken?
    ensures Sound(Step(s, Push))
  {
    assert CallerIsSound(s, s.hand.caller);
    hide IdOf;
    ConcerningOneKeepsSound(s, Step(s, Push), s.hand.caller);
  }

  lemma DrainKeepsSound(s: State, id: string)
    requires Sound(s) && s.process == Draining && id in s.pending
    ensures Sound(Step(s, Drain(id)))
  {
    assert CallerIsSound(s, s.pending[id]);
    hide IdOf;
    ConcerningOneKeepsSound(s, Step(s, Drain(id)), s.pending[id]);
  }

  lemma StepKeepsSound(s: State, a: Action)
    requires Sound(s)
    ensures Sound(Step(s, a))
  {
    hide Sound, IdOf, Blocks, PushTo;
    match a
    case Draw => DrawKeepsSound(s);
    case Take(id, text) => if Step(s, a) != s { TakeKeepsSound(s, id, text); }
    case Push => if Step(s, a) != s { PushKeepsSound(s); }
    case Drain(id) => if Step(s, a) != s { DrainKeepsSound(s, id); }
    case Exit => ProcessIsApart(s, Step(s, a));
    case StartDrain => ProcessIsApart(s, Step(s, a));
    case EndDrain => ProcessIsApart(s, Step(s, a));
    case _ => if a.c < |s.callers| { CallerStepKeepsSound(s, a.c, a); }
  }

  lemma ProcessIsApart(s: State, s': State)
    requires Sound(s) && s' == s.(process := s'.process)
    ensures Sound(s')
  {
    forall c | 0 <= c < |s'.callers|
      ensures CallerIsSound(s', c)
    {
      assert CallerIsSound(s, c);
    }
  }

  function Run(actions: seq<Action>): (s: State)
    ensures Sound(s)
  {
    if actions == [] then START
    else
      var s := Run(actions[..|actions| - 1]);
      StepKeepsSound(s, actions[|actions| - 1]);
      Step(s, actions[|actions| - 1])
  }

  /** A request gets at most one response, and only the one with its own id. */
  lemma AtMostOneResponse(actions: seq<Action>, c: nat)
    requires c < |Run(actions).callers|
    ensures var q := Run(actions).callers[c];
            && q.pushes <= 1
            && (q.channel.Some? && q.channel.value.Message? ==> q.channel.value.id == IdOf(c))
            && (q.phase.Returned? && q.phase.result.Some? && q.phase.result.value.Message? ==>
                 q.phase.result.value.id == IdOf(c))
  {
    assert CallerIsSound(Run(actions), c);
  }

  /** Neither the reader nor the drain ever pushes to a full channel, so neither blocks. */
  lemma PushesNeverBlock(actions: seq<Action>)
    ensures var s := Run(actions);
            && (s.hand.Taken? ==> !Blocks(s, s.hand.caller) && Step(s, Push).hand == Empty)
            && forall id :: id in s.pending ==> !Blocks(s, s.pending[id])
  {
  }

  /**
    The drain ends: whatever else happens meanwhile, no one adds to the table while the drain holds its mutex, and every
    entry left can be drained at once.
  */
  lemma DrainMakesProgress(actions: seq<Action>, id: string, other: Action)
    requires Run(actions).process == Draining
    ensures var s := Run(actions);
            && Step(s, other).pending.Keys <= s.pending.Keys
            && (id in s.pending ==> Step(s, Drain(id)).pending.Keys == s.pending.Keys - {id})
            && (s.pending == map[] ==> Step(s, EndDrain).process == Drained)
  {
    var s := Run(actions);
    hide Run;
    NoOneEnters(s, other);
    if id in s.pending {
      EntriesCanBeDrained(s, id);
    }
  }

  lemma NoOneEnters(s: State, other: Action)
    requires s.process == Draining
    ensures Step(s, other).pending.Keys <= s.pending.Keys
  {
    hide IdOf;
  }

  lemma EntriesCanBeDrained(s: State, id: string)
    requires Sound(s) && s.process == Draining && id in s.pending
    ensures Step(s, Drain(id)).pending.Keys == s.pending.Keys - {id}
  {
    hide CallerIsSound, IdOf;
  }

  /** An exit is followed by a drain: from running to closed, then draining, touching nobody on the way. */
  lemma ExitLeadsToDrain(actions: seq<Action>)
    requires Run(actions).process == Running || Run(actions).process == Closed
    ensures var s := Run(actions);
            Step(Step(s, Exit), StartDrain) == State(s.callers, s.pending, s.hand, Draining)
  {
    hide Run, Sound;
  }

  predicate EmptiedAt(actions: seq<Action>, k: nat) {
    k < |actions| && actions[k].EndDrain? && Run(actions[..k]).process == Draining && Run(actions[..k]).pending == map[]
  }

  lemma OnlyAnEmptyDrainEnds(s: State, a: Action)
    requires Step(s, a).process == Drained && s.process != Drained
    ensures a.EndDrain? && s.process == Draining && s.pending == map[]
  {
    hide IdOf;
  }

  /** A process is drained only once a drain has come to its end, with nobody left in the table. */
  lemma {:induction false} DrainedWasEmptied(actions: seq<Action>)
    requires Run(actions).process == Drained
    ensures exists k: nat :: EmptiedAt(actions, k)
  {
    var n := |actions| - 1;
    var before := Run(actions[..n]);
    hide Sound, Step;
    if before.process == Drained {
      DrainedWasEmptied(actions[..n]);
      var k: nat :| EmptiedAt(actions[..n], k);
      assert actions[..n][..k] == actions[..k];
      assert EmptiedAt(actions, k);
    } else {
      OnlyAnEmptyDrainEnds(before, actions[n]);
      assert EmptiedAt(actions, n);
    }
  }

  /** No response is lost: a waiting caller is in the table, or in the reader's hand, or has its response already. */
  lemma WaitersAreRemembered(actions: seq<Action>, c: nat)
    requires c < |Run(actions).callers| && Run(actions).callers[c].phase.Awaiting?
    ensures var s := Run(actions);
            IdOf(c) in s.pending || (s.hand.Taken? && s.hand.caller == c) ||
              (s.callers[c].channel.Some? && Step(s, Receive(c)).callers[c].phase == Returned(s.callers[c].channel))
    ensures var s := Run(actions); s.process == Drained && IdOf(c) !in s.pending && s.hand.Empty? ==>
              s.callers[c].channel.Some?
  {
    assert CallerIsSound(Run(actions), c);
  }

  /** Nothing leaks: a caller that has returned is not in the table. */
  lemma ReturnedCallersAreForgotten(actions: seq<Action>, id: string)
    requires id in Run(actions).pending
    ensures var s := Run(actions); s.pending[id] < |s.callers| && !s.callers[s.pending[id]].phase.Returned?
  {
    var s := Run(actions);
    assert CallerIsSound(s, s.pending[id]);
  }

  /** A caller whose send failed, or that gave up waiting, returns without a response and leaves the table. */
  lemma FailedCallsEnd(actions: seq<Action>, c: nat, failing: Action)
    requires var s := Run(actions);
             && c < |s.callers| && s.process != Draining
             && ((s.callers[c].phase.Sending? && failing == Sent(c, false)) ||
                  (s.callers[c].phase.Awaiting? && failing == GiveUp(c)))
    ensures var s' := Step(Step(Run(actions), failing), Remove(c));
            s'.callers[c].phase == Returned(None) && s'.pending == Run(actions).pending - {IdOf(c)}
  {
    hide Sound, IdOf;
  }

  /** A response is matched to the caller with its id; a response to anything else changes nothing. */
  lemma ResponsesFindTheirCallers(actions: seq<Action>, id: string, text: string)
    requires Run(actions).hand == Empty && Run(actions).process != Draining
    ensures var s, s' := Run(actions), Step(Step(Run(actions), Take(id, text)), Push);
            if id in s.pending then
              var c := s.pending[id];
              && c < |s.callers| && id == IdOf(c) && s'.callers[c].channel == Some(Message(id, text))
              && s'.pending == s.pending - {id} && s'.hand == Empty
              && forall d :: 0 <= d < |s.callers| && d != c ==> s'.callers[d] == s.callers[d]
            else s' == s
  {
    var s := Run(actions);
    if id in s.pending {
      assert Untouched(s, s.pending[id]);
    }
    hide Sound, IdOf;
  }
}
