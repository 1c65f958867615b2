/**
  Requests that app-servers make of the desktop client: forwardServerRequest, handleServerRequestResponse and the server
  half of the two sweeps, in internal/mux/mux.go.
*/
module ServerRequests {
  import opened Common
  import Text

  // ---- rewritten ids ----

  function ServerId(account: string, sequence: nat): string {
    "codex-mux:" + account + ":" + Text.Decimal(sequence)
  }

  lemma LastColon(a: string, x: string, s: string)
    requires s == a + ":" + x && Text.AllDigits(x)
    ensures s[|a|] == ':' && forall k :: |a| < k < |s| ==> s[k] != ':'
  {
    forall k | |a| < k < |s|
      ensures s[k] != ':'
    {
      assert s[k] == x[k - |a| - 1];
      assert Text.IsDigit(x[k - |a| - 1]);
    }
  }

  /** No two requests get the same id, whatever the accounts are called: colons and digits in their names included. */
  lemma IdsAreDistinct(a: string, m: nat, b: string, n: nat)
    requires ServerId(a, m) == ServerId(b, n)
    ensures a == b && m == n
  {
    var s, x, y := ServerId(a, m), Text.Decimal(m), Text.Decimal(n);
    LastColon("codex-mux:" + a, x, s);
    LastColon("codex-mux:" + b, y, s);
    assert |a| == |b|;
    assert a == s[10..10 + |a|] && b == s[10..10 + |b|] && x == s[|a| + 11..] && y == s[|b| + 11..];
    Text.DecimalIsInjective(m, n);
  }

  /** An id tells whose request it is and, read back, its number. */
  lemma IdTellsBoth(account: string, number: nat)
    requires number <= Text.MAX_INT64
    ensures var id, n := ServerId(account, number), |account|;
            && |id| > n + 11 && id[..10] == "codex-mux:" && id[10..n + 10] == account && id[n + 10] == ':'
            && Text.Atoi(id[n + 11..]) == Some(number)
  {
    var id, digits := ServerId(account, number), Text.Decimal(number);
    assert id == "codex-mux:" + account + (":" + digits);
    assert id[|account| + 11..] == digits;
    Text.AtoiReadsDecimal(number);
  }

  // ---- the table ----

  /** A request an app-server made; number is its sequence number, 0 when the router was already closing. */
  datatype Ask = Ask(account: string, original: string, number: nat)

  datatype Route = Route(request: nat, account: string, original: string, expiresAt: int)

  /** What was sent back to an app-server; code 0 is the client's own answer. */
  datatype Answer = Answer(request: nat, account: string, original: string, code: int)

  /** A request in the hands of the one loop that reads from the app-servers: past the check for shutdown. */
  datatype Arrival = Arrival(account: string, original: string)

  /**
    children are the accounts whose app-server is there; an answer to one that is gone is dropped. refused are the ids
    of the client's answers that it was told came too late.
  */
  datatype State = State(
    closing: bool, sequence: nat, hand: Option<Arrival>, routes: map<string, Route>, children: set<string>,
    asks: seq<Ask>, answers: seq<Answer>, dropped: seq<nat>, refused: seq<string>)

  /** Check and Register are the two pieces of forwardServerRequest: Close can come between them. */
  datatype Action =
    | Check(account: string, original: string)
    | Register(expiresAt: int)
    | Respond(id: string)
    | Refuse(id: string)
    | Expire(id: string, now: int)
    | Drop(id: string)
    | Close
    | Children(children: set<string>)

  const REFUSED := -32031

  const START := State(false, 0, None, map[], {}, [], [], [], [])

  function Deliver(s: State, a: Answer): State {
    if a.account in s.children then s.(answers := s.answers + [a]) else s.(dropped := s.dropped + [a.request])
  }

  function OnCheck(s: State, account: string, original: string): State {
    if s.hand.Some? then s
    else if s.closing then
      Deliver(s.(asks := s.asks + [Ask(account, original, 0)]), Answer(|s.asks|, account, original, REFUSED))
    else s.(hand := Some(Arrival(account, original)))
  }

  function OnRegister(s: State, expiresAt: int): State {
    match s.hand
    case None => s
    case Some(Arrival(account, original)) =>
      var n := s.sequence + 1;
      s.(hand := None, sequence := n, asks := s.asks + [Ask(account, original, n)],
         routes := s.routes[ServerId(account, n) := Route(|s.asks|, account, original, expiresAt)])
  }

  /** Taking a route out of the table and answering its app-server. */
  function Settle(s: State, id: string, code: int): State
    requires id in s.routes
  {
    var r := s.routes[id];
    Deliver(s.(routes := s.routes - {id}), Answer(r.request, r.account, r.original, code))
  }

  function Step(s: State, a: Action): State {
    match a
    case Check(account, original) => OnCheck(s, account, original)
    case Register(expiresAt) => OnRegister(s, expiresAt)
    case Respond(id) => if id in s.routes then Settle(s, id, 0) else s
    case Refuse(id) => if s.closing then s.(refused := s.refused + [id]) else s
    case Expire(id, now) => if id in s.routes && s.routes[id].expiresAt <= now then Settle(s, id, REFUSED) else s
    case Drop(id) => if id in s.routes && s.closing then Settle(s, id, REFUSED) else s
    case Close => s.(closing := true)
    case Children(children) => s.(children := children)
  }

  // ---- what every run keeps ----

  function Of(request: nat): Answer -> bool {
    (a: Answer) => a.request == request
  }

  function Is(request: nat): nat -> bool {
    (n: nat) => n == request
  }

  function Pending(s: State, i: nat): nat
    requires i < |s.asks|
  {
    if s.asks[i].number > 0 && ServerId(s.asks[i].account, s.asks[i].number) in s.routes then 1 else 0
  }

  predicate Conserved(s: State, i: nat)
    requires i < |s.asks|
  {
    Count(s.answers, Of(i)) + Count(s.dropped, Is(i)) + Pending(s, i) == 1
  }

  predicate RouteIsOf(r: Route, id: string, asks: seq<Ask>) {
    && r.request < |asks| && asks[r.request].number > 0
    && id == ServerId(asks[r.request].account, asks[r.request].number)
    && r.account == asks[r.request].account && r.original == asks[r.request].original
  }

  predicate AnswerIsOf(a: Answer, asks: seq<Ask>) {
    a.request < |asks| && a.account == asks[a.request].account && a.original == asks[a.request].original
  }

  ghost predicate Sound(s: State) {
    && (forall i :: 0 <= i < |s.asks| ==> s.asks[i].number <= s.sequence)
    && (forall i, j :: 0 <= i < j < |s.asks| && s.asks[j].number > 0 ==> s.asks[i].number < s.asks[j].number)
    && (forall id :: id in s.routes ==> RouteIsOf(s.routes[id], id, s.asks))
    && (forall k :: 0 <= k < |s.answers| ==> AnswerIsOf(s.answers[k], s.asks))
    && (forall k :: 0 <= k < |s.dropped| ==> s.dropped[k] < |s.asks|)
    && (forall i :: 0 <= i < |s.asks| ==> Conserved(s, i))
  }

  lemma DeliverCounts(s: State, a: Answer, i: nat)
    ensures var s' := Deliver(s, a);
            Count(s'.answers, Of(i)) + Count(s'.dropped, Is(i)) ==
            Count(s.answers, Of(i)) + Count(s.dropped, Is(i)) + (if a.request == i then 1 else 0)
  {
    CountOfAppend(s.answers, a, Of(i));
    CountOfAppend(s.dropped, a.request, Is(i));
  }

  /** A request has one id, so taking that id out of the table settles that request and no other. */
  lemma OthersStayPending(s: State, id: string, i: nat)
    requires Sound(s) && id in s.routes && i < |s.asks|
    ensures Pending(s.(routes := s.routes - {id}), i) == Pending(s, i) - (if s.routes[id].request == i then 1 else 0)
  {
    var r := s.routes[id];
    assert RouteIsOf(r, id, s.asks);
    if s.asks[i].number > 0 && ServerId(s.asks[i].account, s.asks[i].number) == id {
      IdsAreDistinct(s.asks[i].account, s.asks[i].number, s.asks[r.request].account, s.asks[r.request].number);
    }
  }

  lemma SettleConserves(s: State, id: string, code: int, i: nat)
    requires Sound(s) && id in s.routes && i < |s.asks|
    ensures Conserved(Settle(s, id, code), i)
  {
    var r := s.routes[id];
    assert Conserved(s, i);
    OthersStayPending(s, id, i);
    DeliverCounts(s.(routes := s.routes - {id}), Answer(r.request, r.account, r.original, code), i);
    hide ServerId, Sound;
  }

  lemma SettleKeepsSound(s: State, id: string, code: int)
    requires Sound(s) && id in s.routes
    ensures Sound(Settle(s, id, code))
  {
    hide ServerId;
    assert RouteIsOf(s.routes[id], id, s.asks);
    forall i | 0 <= i < |s.asks|
      ensures Conserved(Settle(s, id, code), i)
    {
      SettleConserves(s, id, code, i);
    }
    hide Conserved;
  }

  lemma CheckConserves(s: State, account: string, original: string, i: nat)
    requires Sound(s) && i < |OnCheck(s, account, original).asks|
    ensures Conserved(OnCheck(s, account, original), i)
  {
    var n := |s.asks|;
    NoneYet(s, n);
    assert i < n ==> Conserved(s, i);
    hide ServerId, Sound, Of, Is;
    if s.hand == None && s.closing {
      DeliverCounts(s.(asks := s.asks + [Ask(account, original, 0)]), Answer(n, account, original, REFUSED), i);
    }
  }

  lemma NewIdIsFresh(s: State, account: string, i: nat)
    requires Sound(s) && i < |s.asks|
    ensures s.asks[i].number > 0 ==> ServerId(s.asks[i].account, s.asks[i].number) != ServerId(account, s.sequence + 1)
  {
    if s.asks[i].number > 0 && ServerId(s.asks[i].account, s.asks[i].number) == ServerId(account, s.sequence + 1) {
      IdsAreDistinct(s.asks[i].account, s.asks[i].number, account, s.sequence + 1);
    }
  }

  lemma RegisterConserves(s: State, expiresAt: int, i: nat)
    requires Sound(s) && i < |OnRegister(s, expiresAt).asks|
    ensures Conserved(OnRegister(s, expiresAt), i)
  {
    NoneYet(s, |s.asks|);
    if i < |s.asks| {
      assert Conserved(s, i);
      if s.hand.Some? {
        NewIdIsFresh(s, s.hand.value.account, i);
      }
    }
    hide ServerId, Sound, Of, Is;
  }

  /** A step that adds a request keeps what was known of the ones before. */
  lemma RestStaysSound(s: State, s': State)
    requires Sound(s) && |s.asks| <= |s'.asks| && s'.asks[..|s.asks|] == s.asks
    ensures forall id :: id in s.routes ==> RouteIsOf(s.routes[id], id, s'.asks)
    ensures forall k :: 0 <= k < |s.answers| ==> AnswerIsOf(s.answers[k], s'.asks)
  {
    hide ServerId, Conserved;
    forall id | id in s.routes
      ensures RouteIsOf(s.routes[id], id, s'.asks)
    {
      assert RouteIsOf(s.routes[id], id, s.asks);
    }
    forall k | 0 <= k < |s.answers|
      ensures AnswerIsOf(s.answers[k], s'.asks)
    {
      assert AnswerIsOf(s.answers[k], s.asks);
    }
  }

  lemma CheckKeepsSound(s: State, account: string, original: string)
    requires Sound(s)
    ensures Sound(OnCheck(s, account, original))
  {
    var s' := OnCheck(s, account, original);
    hide ServerId;
    forall i | 0 <= i < |s'.asks|
      ensures Conserved(s', i)
    {
      CheckConserves(s, account, original, i);
    }
    hide Conserved;
    RestStaysSound(s, s');
  }

  lemma RegisterKeepsSound(s: State, expiresAt: int)
    requires Sound(s)
    ensures Sound(OnRegister(s, expiresAt))
  {
    var s' := OnRegister(s, expiresAt);
    hide ServerId, Conserved;
    if s.hand.Some? {
      forall i | 0 <= i < |s'.asks|
        ensures Conserved(s', i)
      {
        RegisterConserves(s, expiresAt, i);
      }
      RestStaysSound(s, s');
      assert forall id :: id in s'.routes ==> RouteIsOf(s'.routes[id], id, s'.asks);
      hide RouteIsOf, AnswerIsOf;
    }
  }

  lemma NoneYet(s: State, n: nat)
    requires Sound(s) && n == |s.asks|
    ensures Count(s.answers, Of(n)) == 0 && Count(s.dropped, Is(n)) == 0
  {
    forall k | 0 <= k < |s.answers|
      ensures s.answers[k].request < n
    {
      assert AnswerIsOf(s.answers[k], s.asks);
    }
    NoAnswers(s.answers, n);
    NoDrops(s.dropped, n);
  }

  lemma {:induction false} NoAnswers(answers: seq<Answer>, n: nat)
    requires forall k :: 0 <= k < |answers| ==> answers[k].request < n
    ensures Count(answers, Of(n)) == 0
  {
    if answers != [] {
      NoAnswers(answers[..|answers| - 1], n);
    }
  }

  lemma {:induction false} NoDrops(dropped: seq<nat>, n: nat)
    requires forall k :: 0 <= k < |dropped| ==> dropped[k] < n
    ensures Count(dropped, Is(n)) == 0
  {
    if dropped != [] {
      NoDrops(dropped[..|dropped| - 1], n);
    }
  }

  lemma FlagsKeepSound(s: State, closing: bool, children: set<string>, refused: seq<string>)
    requires Sound(s)
    ensures Sound(s.(closing := closing, children := children, refused := refused))
  {
    var s' := s.(closing := closing, children := children, refused := refused);
    forall i | 0 <= i < |s.asks|
      ensures Conserved(s', i)
    {
      assert Conserved(s, i);
    }
    hide Conserved, ServerId;
  }

  lemma StepKeepsSound(s: State, a: Action)
    requires Sound(s)
    ensures Sound(Step(s, a))
  {
    hide Sound, OnCheck, OnRegister, Settle;
    match a
    case Check(account, original) => CheckKeepsSound(s, account, original);
    case Register(expiresAt) => RegisterKeepsSound(s, expiresAt);
    case Respond(id) => if id in s.routes { SettleKeepsSound(s, id, 0); }
    case Refuse(id) => FlagsKeepSound(s, s.closing, s.children, s.refused + [id]);
    case Expire(id, now) => if id in s.routes { SettleKeepsSound(s, id, REFUSED); }
    case Drop(id) => if id in s.routes { SettleKeepsSound(s, id, REFUSED); }
    case Close => FlagsKeepSound(s, true, s.children, s.refused);
    case Children(children) => FlagsKeepSound(s, s.closing, children, s.refused);
  }

  function Steps(s: State, actions: seq<Action>): (s': State)
    requires Sound(s)
    ensures Sound(s')
  {
    if actions == [] then s
    else
      var before := Steps(s, actions[..|actions| - 1]);
      StepKeepsSound(before, actions[|actions| - 1]);
      Step(before, actions[|actions| - 1])
  }

  function Run(actions: seq<Action>): (s: State)
    ensures Sound(s)
  {
    Steps(START, actions)
  }

  /**
    Every request taken up is, at every moment of every run, answered once, or dropped with its app-server gone, or
    still waiting under its id: by the client, the time limit or the shutdown, whichever comes first.
  */
  lemma AnsweredAtMostOnce(actions: seq<Action>, i: nat)
    requires i < |Run(actions).asks|
    ensures var s := Run(actions);
            Count(s.answers, Of(i)) + Count(s.dropped, Is(i)) + Pending(s, i) == 1
  {
    var s := Run(actions);
    assert Conserved(s, i);
  }

  /** An answer goes to the account that asked, under the id it asked with. */
  lemma AnswersGoHome(actions: seq<Action>, k: nat)
    requires k < |Run(actions).answers|
    ensures var s := Run(actions);
            var a := s.answers[k];
            a.request < |s.asks| && a.account == s.asks[a.request].account && a.original == s.asks[a.request].original
  {
    var s := Run(actions);
    assert AnswerIsOf(s.answers[k], s.asks);
  }

  /** Over a whole run no id is shown to the client twice. */
  lemma NoIdIsReused(actions: seq<Action>, i: nat, j: nat)
    requires var asks := Run(actions).asks; i < j < |asks| && asks[i].number > 0 && asks[j].number > 0
    ensures var asks := Run(actions).asks; ServerId(asks[i].account, asks[i].number) != ServerId(asks[j].account,
              asks[j].number)
  {
    var asks := Run(actions).asks;
    if ServerId(asks[i].account, asks[i].number) == ServerId(asks[j].account, asks[j].number) {
      IdsAreDistinct(asks[i].account, asks[i].number, asks[j].account, asks[j].number);
    }
  }

  /** A new id is not the key of a route in the table either. */
  lemma NewIdIsNoKey(s: State, account: string)
    requires Sound(s)
    ensures ServerId(account, s.sequence + 1) !in s.routes
  {
    var id := ServerId(account, s.sequence + 1);
    if id in s.routes {
      assert RouteIsOf(s.routes[id], id, s.asks);
      NewIdIsFresh(s, account, s.routes[id].request);
    }
  }

  // ---- shutdown ----

  lemma {:induction false} EmptyStaysEmpty(s: State, actions: seq<Action>)
    requires Sound(s) && s.closing && s.hand == None && s.routes == map[]
    ensures var s' := Steps(s, actions); s'.closing && s'.hand == None && s'.routes == map[]
  {
    hide Sound;
    if actions != [] {
      EmptyStaysEmpty(s, actions[..|actions| - 1]);
    }
  }

  lemma OneStep(s: State, a: Action)
    requires Sound(s)
    ensures Steps(s, [a]) == Step(s, a)
  {
    hide Sound;
    assert [a][..0] == [];
    assert Steps(s, []) == s;
  }

  /**
    Once a shutdown has swept the table it stays empty, whatever comes, exactly when the loop held no request between
    the check and the registration. A request it held is registered behind the sweep.
  */
  lemma ShutdownIsComplete(s: State)
    requires Sound(s) && s.closing && s.routes == map[]
    ensures (forall actions :: Steps(s, actions).routes == map[]) <==> s.hand == None
  {
    hide Sound;
    if s.hand == None {
      forall actions
        ensures Steps(s, actions).routes == map[]
      {
        EmptyStaysEmpty(s, actions);
      }
    } else {
      OneStep(s, Register(0));
      assert ServerId(s.hand.value.account, s.sequence + 1) in Steps(s, [Register(0)]).routes;
    }
  }

  lemma LastStep(before: seq<Action>, a: Action)
    ensures Run(before + [a]) == Step(Run(before), a)
  {
    hide Sound;
    assert (before + [a])[..|before|] == before;
  }

  /** The run that leaves one behind: the client is never to answer it, for a shutdown refuses its answers. */
  lemma StrandingHappens(account: string, original: string, expiresAt: int)
    ensures var s := Run([Check(account, original), Close, Register(expiresAt)]);
            s.closing && |s.asks| == 1 && s.answers == [] && s.dropped == [] && Pending(s, 0) == 1
  {
    hide Sound;
    LastStep([], Check(account, original));
    LastStep([Check(account, original)], Close);
    LastStep([Check(account, original), Close], Register(expiresAt));
    assert [] + [Check(account, original)] == [Check(account, original)];
    assert [Check(account, original)] + [Close] == [Check(account, original), Close];
    assert [Check(account, original), Close] + [Register(expiresAt)] ==
      [Check(account, original), Close, Register(expiresAt)];
  }

  // ---- in plain terms ----

  /** The request under this id is out of the table, and its app-server, if it is still there, has been told so. */
  predicate SettledWith(s: State, s': State, id: string, code: int) {
    id in s.routes &&
      var r := s.routes[id];
      && s'.routes == s.routes - {id}
      && (if r.account in s.children then
            s'.answers == s.answers + [Answer(r.request, r.account, r.original, code)] && s'.dropped == s.dropped
          else s'.answers == s.answers && s'.dropped == s.dropped + [r.request])
  }

  /**
    The client's answer under a pending id is passed on as it is. A request whose deadline has come, or that a shutdown
    finds, is refused with -32031, as is one that arrives while closing. Nothing else settles a request.
  */
  lemma SettledExactly(s: State, a: Action)
    ensures var s' := Step(s, a);
            match a
            case Respond(id) => if id in s.routes then SettledWith(s, s', id, 0) else s' == s
            case Expire(id, now) =>
              if id in s.routes && now >= s.routes[id].expiresAt then SettledWith(s, s', id, -32031) else s' == s
            case Drop(id) => if id in s.routes && s.closing then SettledWith(s, s', id, -32031) else s' == s
            case Check(account, original) =>
              && s'.routes == s.routes
              && (if s.hand == None && s.closing && account in s.children then
                    s'.answers == s.answers + [Answer(|s.asks|, account, original, -32031)]
                  else s'.answers == s.answers)
              && (s'.hand == if s.hand == None && !s.closing then Some(Arrival(account, original)) else s.hand)
            case Register(expiresAt) =>
              && s'.answers == s.answers && s'.dropped == s.dropped
              && (if s.hand == None then s' == s
                  else
                    var Arrival(account, original) := s.hand.value;
                    && s'.routes == s.routes[ServerId(account, s.sequence + 1) :=
                                             Route(|s.asks|, account, original, expiresAt)]
                    && s'.asks == s.asks + [Ask(account, original, s.sequence + 1)] && s'.hand == None)
            case Refuse(id) => s' == s.(refused := if s.closing then s.refused + [id] else s.refused)
            case Close => s' == s.(closing := true)
            case Children(children) => s' == s.(children := children)
  {
    hide ServerId;
  }

  predicate Responds(a: Action) {
    a.Respond?
  }

  /** An app-server is given an answer that is not a refusal only if the client gave one. */
  lemma {:induction false} OnlyTheClientAnswers(actions: seq<Action>)
    requires forall k :: 0 <= k < |actions| ==> !Responds(actions[k])
    ensures forall k :: 0 <= k < |Run(actions).answers| ==> Run(actions).answers[k].code == -32031
  {
    hide Sound;
    if actions != [] {
      var front, a := actions[..|actions| - 1], actions[|actions| - 1];
      OnlyTheClientAnswers(front);
      SettledExactly(Run(front), a);
      hide Step;
    }
  }

  /** The multiplexer's table of requests under way to the client. */
  class ServerTable {
    var closing: bool
    var serverSequence: nat
    var hand: Option<Arrival>
    var serverRoutes: map<string, Route>
    var children: set<string>
    var arrivals: nat
    var sent: seq<Answer>
    var refused: seq<string>
    ghost var state: State

    ghost predicate Valid()
      reads this
    {
      && Sound(state) && state.closing == closing && state.sequence == serverSequence && state.hand == hand
      && state.routes == serverRoutes && state.children == children && state.answers == sent
      && |state.asks| == arrivals && state.refused == refused
    }

    constructor ()
      ensures Valid() && state == START
    {
      closing, serverSequence, hand, serverRoutes, children, arrivals := false, 0, None, map[], {}, 0;
      sent, refused, state := [], [], START;
    }

    /** forwardServerRequest up to its check: the app-server is refused when the router is closing. */
    method CheckForward(account: string, original: string) returns (accepted: bool)
      requires Valid() && hand == None
      modifies this
      ensures Valid() && state == Step(old(state), Check(account, original)) && accepted == !closing
    {
      StepKeepsSound(state, Check(account, original));
      state := Step(state, Check(account, original));
      hide Sound;
      if closing {
        if account in children {
          sent := sent + [Answer(arrivals, account, original, REFUSED)];
        }
        arrivals := arrivals + 1;
        return false;
      }
      hand := Some(Arrival(account, original));
      return true;
    }

    /** The rest of it: the request is registered under the id that the client is shown. */
    method ForwardServerRequest(expiresAt: int) returns (id: string)
      requires Valid() && hand.Some?
      modifies this
      ensures Valid() && state == Step(old(state), Register(expiresAt))
      ensures id == ServerId(old(hand).value.account, old(serverSequence) + 1)
      ensures id !in old(serverRoutes) && id in serverRoutes
    {
      NewIdIsNoKey(state, hand.value.account);
      StepKeepsSound(state, Register(expiresAt));
      state := Step(state, Register(expiresAt));
      hide Sound;
      var Arrival(account, original) := hand.value;
      serverSequence := serverSequence + 1;
      id := ServerId(account, serverSequence);
      serverRoutes := serverRoutes[id := Route(arrivals, account, original, expiresAt)];
      hand, arrivals := None, arrivals + 1;
    }

    /** The client answers under a rewritten id; an answer to an unknown id is ignored. */
    method HandleServerRequestResponse(id: string)
      requires Valid()
      modifies this
      ensures Valid() && state == Step(old(state), Respond(id))
    {
      StepKeepsSound(state, Respond(id));
      state := Step(state, Respond(id));
      hide Sound;
      if id in serverRoutes {
        Take(id, 0);
      }
    }

    /** HandleClient with an answer in hand: while the router is closing the client is told that it came too late. */
    method HandleClient(id: string)
      requires Valid()
      modifies this
      ensures Valid() && state == Step(old(state), if closing then Refuse(id) else Respond(id))
      ensures closing ==> serverRoutes == old(serverRoutes) && sent == old(sent)
    {
      if closing {
        StepKeepsSound(state, Refuse(id));
        state, refused := Step(state, Refuse(id)), refused + [id];
        hide Sound;
        return;
      }
      HandleServerRequestResponse(id);
    }

    method Take(id: string, code: int)
      requires id in serverRoutes
      modifies this`serverRoutes, this`sent
      ensures serverRoutes == old(serverRoutes) - {id}
      ensures var r := old(serverRoutes)[id];
              sent == old(sent) + (if r.account in children then [Answer(r.request, r.account, r.original, code)]
                else [])
    {
      var route := serverRoutes[id];
      serverRoutes := serverRoutes - {id};
      if route.account in children {
        sent := sent + [Answer(route.request, route.account, route.original, code)];
      }
    }

    /** The sweep of overdue requests, visiting the map in any order. */
    method ExpireServerRoutes(now: int) returns (ghost actions: seq<Action>)
      requires Valid()
      modifies this
      ensures Valid() && state == Steps(old(state), actions) && forall a :: a in actions ==> a.Expire? && a.now == now
      ensures forall id :: id in serverRoutes <==> id in old(serverRoutes) && old(serverRoutes)[id].expiresAt > now
    {
      actions := [];
      var unvisited := serverRoutes.Keys;
      hide Sound;
      while unvisited != {}
        invariant Valid() && state == Steps(old(state), actions) && forall a :: a in actions ==>
                    a.Expire? && a.now == now
        invariant unvisited <= serverRoutes.Keys
        invariant forall id :: id in serverRoutes <==>
                    id in old(serverRoutes) && (id in unvisited || old(serverRoutes)[id].expiresAt > now)
        invariant forall id :: id in serverRoutes ==> serverRoutes[id] == old(serverRoutes)[id]
        decreases |unvisited|
      {
        var id :| id in unvisited;
        unvisited := unvisited - {id};
        if serverRoutes[id].expiresAt <= now {
          StepKeepsSound(state, Expire(id, now));
          assert (actions + [Expire(id, now)])[..|actions|] == actions;
          state, actions := Step(state, Expire(id, now)), actions + [Expire(id, now)];
          Take(id, REFUSED);
        }
      }
    }

    /** The sweep at shutdown takes every request out and refuses it, again in any order. */
    method DropServerRoutes() returns (ghost actions: seq<Action>)
      requires Valid() && closing
      modifies this
      ensures Valid() && state == Steps(old(state), actions) && forall a :: a in actions ==> a.Drop?
      ensures closing && serverRoutes == map[] && hand == old(hand)
    {
      actions := [];
      hide Sound;
      while serverRoutes != map[]
        invariant Valid() && state == Steps(old(state), actions) && forall a :: a in actions ==> a.Drop?
        invariant closing && hand == old(hand)
        decreases |serverRoutes|
      {
        var id :| id in serverRoutes;
        StepKeepsSound(state, Drop(id));
        assert (actions + [Drop(id)])[..|actions|] == actions;
        state, actions := Step(state, Drop(id)), actions + [Drop(id)];
        Take(id, REFUSED);
      }
    }

    method Close() returns (ghost actions: seq<Action>)
      requires Valid()
      modifies this
      ensures Valid() && closing && serverRoutes == map[] && hand == old(hand)
      ensures Sound(Step(old(state), Action.Close)) && state == Steps(Step(old(state), Action.Close), actions)
      ensures forall a :: a in actions ==> a.Drop?
    {
      StepKeepsSound(state, Action.Close);
      state, closing := Step(state, Action.Close), true;
      hide Sound;
      actions := DropServerRoutes();
    }
  }
}
