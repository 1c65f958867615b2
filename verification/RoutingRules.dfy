/**
  When the multiplexer does what: which responses are retried and which delivered, which requests it serves itself,
  where a request is forwarded and with which failures it is answered (internal/mux/mux.go).
*/
module RoutingRules {
  import opened Common
  import opened Multiplexer
  import opened MultiplexerRuns
  import opened Failover

  // ---- responses ----

  /** A chat can go on elsewhere: a new one anywhere, an existing one by moving its thread. */
  predicate Movable(r: Request) {
    r.operation == "thread/start" || (r.operation == "turn/start" && r.thread != "")
  }

  /**
    A response from the account that was asked takes the route, and one goroutine goes on. It tries the other accounts
    if and only if the account reports its usage limit, spending is not the gateway's business, and the chat can go on
    elsewhere; it tells the client that everything is depleted if and only if the chat cannot be named; otherwise it
    delivers the response. Any other response changes nothing.
  */
  lemma RetriedExactly(s: State, account: string, key: string, usageLimit: bool)
    requires Shaped(s)
    ensures var s' := Step(s, Respond(account, key, usageLimit));
            if key in s.routes && s.routes[key].account == account then
              var route, n := s.routes[key], |s.tasks|;
              route.serial < |s.requests| && |s'.tasks| == n + 1 &&
              var r, t, limited := s.requests[route.serial], s'.tasks[n], usageLimit && !s.spending;
              && s' == s.(routes := s.routes - {key}, tasks := s.tasks + [t])
              && (t == Choosing(route.serial, route.excluded + {account}) <==> limited && Movable(r))
              && (t == Answering(route.serial, -32026) <==> limited && r.operation == "turn/start" && r.thread == "")
              && (t == Answering(route.serial, 0) <==>
                   !limited || (r.operation != "thread/start" && r.operation != "turn/start"))
            else s' == s
  {
    IsShaped(s);
    hide Shaped;
  }

  // ---- second forwards ----

  predicate Prospective(t: Task) {
    t.Choosing? || t.Forwarding? || t.Checked?
  }

  /** A usage limit was reported, and it moves chats, of which the request is one. */
  predicate MayRepeat(s: State, limited: bool, serial: nat)
    requires serial < |s.requests|
  {
    limited && !s.spending && Movable(s.requests[serial])
  }

  predicate TaskIsFirst(s: State, limited: bool, t: Task) {
    Prospective(t) ==>
      && t.serial < |s.requests|
      && (MayRepeat(s, limited, t.serial) || forall f :: f in s.forwards ==> f.serial != t.serial)
  }

  ghost predicate Single(s: State, limited: bool) {
    && (forall k :: 0 <= k < |s.tasks| ==> TaskIsFirst(s, limited, s.tasks[k]))
    && (forall f :: f in s.forwards ==> f.serial < |s.requests|)
    && (forall i, j :: 0 <= i < j < |s.forwards| && s.forwards[i].serial == s.forwards[j].serial ==>
          s.forwards[i].serial < |s.requests| && MayRepeat(s, limited, s.forwards[i].serial))
  }

  predicate Limits(a: Action) {
    a.Respond? && a.usageLimit
  }

  predicate Limited(actions: seq<Action>) {
    exists i :: 0 <= i < |actions| && Limits(actions[i])
  }

  lemma RequestsStay(s: State, a: Action)
    requires Shaped(s)
    ensures s.requests <= Step(s, a).requests && Step(s, a).spending == s.spending
  {
    hide Shaped;
  }

  lemma OtherStepsStaySingle(s: State, a: Action, limited: bool)
    requires Shaped(s) && Single(s, limited) && !a.Insert?
    ensures Single(Step(s, a), limited || Limits(a))
  {
    var s', now := Step(s, a), limited || Limits(a);
    RequestsStay(s, a);
    SameForwards(s, a);
    forall k | 0 <= k < |s'.tasks|
      ensures TaskIsFirst(s', now, s'.tasks[k])
    {
      if k < |s.tasks| {
        OldTaskGoesOn(s, a, k);
        assert TaskIsFirst(s, limited, s.tasks[k]);
        hide Step, Shaped;
      } else {
        NewTaskIsFirst(s, a, limited, k);
      }
    }
    hide Step, Shaped, TaskIsFirst;
  }

  lemma NewTaskIsFirst(s: State, a: Action, limited: bool, k: nat)
    requires Shaped(s) && Single(s, limited) && !a.Insert? && |s.tasks| <= k < |Step(s, a).tasks|
    ensures TaskIsFirst(Step(s, a), limited || Limits(a), Step(s, a).tasks[k])
  {
    RequestsStay(s, a);
    SameForwards(s, a);
    NewTaskIs(s, a, k);
    if a.Respond? {
      RetriedExactly(s, a.account, a.key, a.usageLimit);
      hide Step, Shaped;
    } else {
      ArrivalIsKnown(s, a, k);
      hide Step, Shaped;
    }
  }

  lemma ArrivalIsKnown(s: State, a: Action, k: nat)
    requires Shaped(s) && !a.Insert? && !a.Respond? && |s.tasks| <= k < |Step(s, a).tasks|
    ensures Prospective(Step(s, a).tasks[k]) ==>
              Step(s, a).tasks[k] == Choosing(|s.requests|, {}) && |Step(s, a).requests| == |s.requests| + 1
  {
    hide Shaped;
  }

  lemma InsertStaysSingle(s: State, k: nat, expiresAt: int, limited: bool)
    requires Balanced(s) && Single(s, limited) && k < |s.tasks| && s.tasks[k].Checked?
    ensures Single(Step(s, Insert(k, expiresAt)), limited)
  {
    var t, s' := s.tasks[k], Step(s, Insert(k, expiresAt));
    BalancedIs(s, 0);
    IsShaped(s);
    hide Balanced, Shaped;
    assert TaskIsFirst(s, limited, t);
    assert s'.requests == s.requests && s'.spending == s.spending && |s'.tasks| == |s.tasks|;
    assert !Prospective(s'.tasks[k]);
    forall j | 0 <= j < |s'.tasks| && j != k
      ensures TaskIsFirst(s', limited, s'.tasks[j])
    {
      OthersAreElsewhere(s, k, j);
      assert TaskIsFirst(s, limited, s.tasks[j]);
    }
    hide TaskIsFirst;
  }

  lemma {:induction false} RunsStaySingle(spending: bool, actions: seq<Action>)
    ensures Single(Run(spending, actions), Limited(actions))
  {
    hide Balanced, Shaped, Step, Single;
    if actions == [] {
      NothingForwarded(spending);
    } else {
      var front, a := actions[..|actions| - 1], actions[|actions| - 1];
      RunsStaySingle(spending, front);
      var s := Run(spending, front);
      assert Limited(actions) <==> Limited(front) || Limits(a) by {
        assert actions == front + [a];
        assert forall i :: 0 <= i < |front| ==> front[i] == actions[i];
      }
      BalancedIs(s, 0);
      assert Run(spending, actions) == Step(s, a);
      hide Run, Limited;
      if a.Insert? {
        if a.task < |s.tasks| && s.tasks[a.task].Checked? {
          InsertStaysSingle(s, a.task, a.expiresAt, Limited(front));
        } else {
          IdleInsert(s, a.task, a.expiresAt);
        }
      } else {
        OtherStepsStaySingle(s, a, Limited(front));
      }
    }
  }

  lemma NothingForwarded(spending: bool)
    ensures Single(Run(spending, []), Limited([]))
  {
  }

  lemma IdleInsert(s: State, k: nat, expiresAt: int)
    requires Shaped(s) && (k >= |s.tasks| || !s.tasks[k].Checked?)
    ensures Step(s, Insert(k, expiresAt)) == s
  {
  }

  /**
    A request is forwarded a second time only if spending is not the gateway's business, some account reported its usage
    limit, and the request is one for a chat that can go on elsewhere.
  */
  lemma SecondForwardsNeedLimits(spending: bool, actions: seq<Action>, i: nat, j: nat)
    requires i < j < |Run(spending, actions).forwards|
    requires Run(spending, actions).forwards[i].serial == Run(spending, actions).forwards[j].serial
    ensures var s := Run(spending, actions);
            && !spending && s.forwards[i].serial < |s.requests| && Movable(s.requests[s.forwards[i].serial])
            && exists k :: 0 <= k < |actions| && actions[k].Respond? && actions[k].usageLimit
  {
    RunsStaySingle(spending, actions);
    SpendingStays(spending, actions);
    hide Run, Balanced;
  }

  lemma {:induction false} SpendingStays(spending: bool, actions: seq<Action>)
    ensures Run(spending, actions).spending == spending
  {
    hide Balanced, Shaped, Step;
    if actions != [] {
      var front, a := actions[..|actions| - 1], actions[|actions| - 1];
      SpendingStays(spending, front);
      BalancedIs(Run(spending, front), 0);
      RequestsStay(Run(spending, front), a);
    }
  }

  // ---- arrivals ----

  /** The requests the router answers itself. */
  predicate Own(r: Request) {
    r.operation == "initialize" || r.operation == "thread/list" || r.operation == "account/rateLimits/read"
  }

  /**
    While closing a request is answered at once; otherwise one goroutine serves it, if it is the router's, or routes
    it.
  */
  lemma ArrivalsAreTakenUp(s: State, r: Request)
    requires Shaped(s)
    ensures var s', n := Step(s, Arrive(r)), |s.requests|;
            && s'.requests == s.requests + [r] && s'.routes == s.routes && s'.forwards == s.forwards
            && (s.closing ==> s'.tasks == s.tasks && s'.replies == s.replies + [Reply(n, -32034)])
            && (!s.closing ==>
                  && s'.replies == s.replies
                  && (if Own(r) then s'.tasks == s.tasks + [Serving(n)] else s'.tasks == s.tasks + [Choosing(n, {})]))
  {
    hide Shaped;
  }

  predicate TaskIsApart(s: State, t: Task) {
    && (t.Serving? ==> t.serial < |s.requests| && Own(s.requests[t.serial]))
    && (Prospective(t) ==> t.serial < |s.requests| && !Own(s.requests[t.serial]))
  }

  /** What the router serves itself it does not forward, and the other way round. */
  ghost predicate Apart(s: State) {
    && (forall k :: 0 <= k < |s.tasks| ==> TaskIsApart(s, s.tasks[k]))
    && (forall f :: f in s.forwards ==> f.serial < |s.requests| && !Own(s.requests[f.serial]))
    && (forall key :: key in s.routes ==>
          s.routes[key].serial < |s.requests| && !Own(s.requests[s.routes[key].serial]))
  }

  lemma OldTaskStaysApart(s: State, a: Action, k: nat)
    requires Shaped(s) && Apart(s) && k < |s.tasks|
    ensures k < |Step(s, a).tasks| && TaskIsApart(Step(s, a), Step(s, a).tasks[k])
  {
    assert TaskIsApart(s, s.tasks[k]);
    RequestsStay(s, a);
    if a.Insert? {
      InsertKeepsTasks(s, a.task, a.expiresAt, k);
    } else {
      OldTaskGoesOn(s, a, k);
      NoLateServing(s, a, k);
    }
    hide Step, Shaped;
  }

  lemma InsertKeepsTasks(s: State, k: nat, expiresAt: int, j: nat)
    requires Shaped(s) && j < |s.tasks|
    ensures var s' := Step(s, Insert(k, expiresAt));
            j < |s'.tasks| && (s'.tasks[j] == s.tasks[j] || (!s'.tasks[j].Serving? && !Prospective(s'.tasks[j])))
  {
    IsShaped(s);
    hide Shaped;
  }

  lemma NoLateServing(s: State, a: Action, k: nat)
    requires Shaped(s) && !a.Insert? && k < |s.tasks|
    ensures k < |Step(s, a).tasks|
    ensures Step(s, a).tasks[k].Serving? ==> Step(s, a).tasks[k] == s.tasks[k]
  {
    OldTaskGoesOn(s, a, k);
    hide Step, Shaped;
  }

  lemma NewTaskIsApart(s: State, a: Action, k: nat)
    requires Shaped(s) && Apart(s) && |s.tasks| <= k < |Step(s, a).tasks|
    ensures TaskIsApart(Step(s, a), Step(s, a).tasks[k])
  {
    if a.Respond? {
      RetriedExactly(s, a.account, a.key, a.usageLimit);
      RequestsStay(s, a);
      hide Step, Shaped;
    } else if a.Arrive? {
      ArrivalsAreTakenUp(s, a.request);
      hide Step, Shaped;
    } else {
      OnlyAnswersAreAdded(s, a, k);
    }
  }

  lemma OnlyAnswersAreAdded(s: State, a: Action, k: nat)
    requires Shaped(s) && !a.Respond? && !a.Arrive? && |s.tasks| <= k < |Step(s, a).tasks|
    ensures Step(s, a).tasks[k].Answering?
  {
    IsShaped(s);
    hide Shaped;
  }

  lemma InsertStaysApart(s: State, k: nat, expiresAt: int)
    requires Shaped(s) && Apart(s)
    ensures var s' := Step(s, Insert(k, expiresAt));
            && s'.requests == s.requests
            && (forall f :: f in s'.forwards ==> f.serial < |s.requests| && !Own(s.requests[f.serial]))
            && (forall key :: key in s'.routes ==>
                  s'.routes[key].serial < |s.requests| && !Own(s.requests[s'.routes[key].serial]))
  {
    IsShaped(s);
    hide Shaped;
    if k < |s.tasks| && s.tasks[k].Checked? {
      assert TaskIsApart(s, s.tasks[k]);
    }
  }

  lemma StepStaysApart(s: State, a: Action)
    requires Shaped(s) && Apart(s)
    ensures Apart(Step(s, a))
  {
    var s' := Step(s, a);
    RequestsStay(s, a);
    forall k | 0 <= k < |s'.tasks|
      ensures TaskIsApart(s', s'.tasks[k])
    {
      if k < |s.tasks| {
        OldTaskStaysApart(s, a, k);
      } else {
        NewTaskIsApart(s, a, k);
      }
    }
    if a.Insert? {
      InsertStaysApart(s, a.task, a.expiresAt);
    } else {
      SameForwards(s, a);
      FewerRoutes(s, a);
    }
    hide Step, Shaped, TaskIsApart;
  }

  lemma {:induction false} RunsStayApart(spending: bool, actions: seq<Action>)
    ensures Apart(Run(spending, actions))
  {
    hide Balanced, Shaped, Step;
    if actions != [] {
      var front, a := actions[..|actions| - 1], actions[|actions| - 1];
      RunsStayApart(spending, front);
      BalancedIs(Run(spending, front), 0);
      hide Apart;
      StepStaysApart(Run(spending, front), a);
    }
  }

  /** No run forwards a request the router answers itself. */
  lemma OwnRequestsStayHere(spending: bool, actions: seq<Action>, i: nat)
    requires i < |Run(spending, actions).forwards|
    ensures var s := Run(spending, actions);
            s.forwards[i].serial < |s.requests| && !Own(s.requests[s.forwards[i].serial])
  {
    RunsStayApart(spending, actions);
    hide Run, Balanced;
  }

  // ---- forwarding ----

  function FailureCode(r: Request): int {
    if r.operation == "thread/start" then -32021 else -32023
  }

  /**
    A request on its way to an account reaches it, and is pending under its own id until the deadline given, if and only
    if the router is not closing, the account's app-server is there and the id is not pending already; otherwise it is
    answered with the failure of its kind.
  */
  lemma ForwardedExactly(s: State, k: nat, available: bool, expiresAt: int)
    requires Shaped(s) && k < |s.tasks| && s.tasks[k].Forwarding? && Shaped(Step(s, Check(k, available)))
    ensures s.tasks[k].serial < |s.requests|
    ensures var Forwarding(serial, account, excluded) := s.tasks[k];
            var r, s' := s.requests[serial], Step(Step(s, Check(k, available)), Insert(k, expiresAt));
            if !s.closing && available && r.key !in s.routes then
              s' == s.(tasks := s.tasks[k := Sending(serial)],
                       routes := s.routes[r.key := Route(serial, account, excluded, expiresAt)],
                       forwards := s.forwards + [Forward(serial, account)])
            else
              s' == s.(tasks := s.tasks[k := Finished], replies := s.replies + [Reply(serial, FailureCode(r))])
  {
    IsShaped(s);
    hide Shaped;
    var t := s.tasks[k];
    if s.closing || !available {
      assert Step(s, Check(k, available)).tasks[k].Finished?;
    } else {
      assert Step(s, Check(k, available)).tasks[k] == Checked(t.serial, t.account, t.excluded);
      assert s.tasks[k := Checked(t.serial, t.account, t.excluded)][k := Sending(t.serial)] ==
        s.tasks[k := Sending(t.serial)];
      assert s.tasks[k := Checked(t.serial, t.account, t.excluded)][k := Finished] == s.tasks[k := Finished];
    }
  }

  /** The account a goroutine chooses is the one it forwards to; one already tried is not chosen. */
  lemma ChosenIsForwarded(s: State, k: nat, account: string)
    requires Shaped(s) && k < |s.tasks| && s.tasks[k].Choosing?
    ensures var t := s.tasks[k];
            Step(s, Choose(k, account)) ==
            if account in t.excluded then s
            else s.(tasks := s.tasks[k := Forwarding(t.serial, account, t.excluded)])
  {
    hide Shaped;
  }

  /** The owner of a turn's thread is passed over only before the first try, and only where a chat can be moved. */
  lemma OwnerIsSkipped(s: State, k: nat, owner: string)
    requires Shaped(s) && k < |s.tasks| && s.tasks[k].Choosing?
    ensures s.tasks[k].serial < |s.requests|
    ensures var t := s.tasks[k];
            Step(s, SkipOwner(k, owner)) ==
            var r := s.requests[t.serial];
            if r.operation == "turn/start" && r.thread != "" && t.excluded == {} && !s.spending then
              s.(tasks := s.tasks[k := Choosing(t.serial, {owner})])
            else s
  {
    IsShaped(s);
    hide Shaped;
  }

  /**
    A send that fails is answered with the failure of its request's kind; one that succeeds leaves the rest to the
    route.
  */
  lemma SendsEnd(s: State, k: nat, ok: bool)
    requires Shaped(s) && k < |s.tasks| && s.tasks[k].Sending?
    ensures s.tasks[k].serial < |s.requests|
    ensures var s', serial := Step(s, Sent(k, ok)), s.tasks[k].serial;
            var r := s.requests[serial];
            && s'.tasks == s.tasks[k := Finished] && s'.forwards == s.forwards
            && s'.routes == (if ok then s.routes else s.routes - {r.key})
            && s'.replies == (if ok then s.replies else s.replies + [Reply(serial, FailureCode(r))])
  {
    IsShaped(s);
    hide Shaped;
    if !ok {
      SendFailedIs(s, k);
      hide OnSendFailed;
    }
  }

  /** A route goes unanswered by an account when its deadline has come or the router is closing, and not before. */
  lemma RoutesEnd(s: State, key: string, now: int)
    requires Shaped(s) && key in s.routes
    ensures var gone := s.(routes := s.routes - {key}, tasks := s.tasks + [Answering(s.routes[key].serial, -32030)]);
            && Step(s, Expire(key, now)) == (if now >= s.routes[key].expiresAt then gone else s)
            && Step(s, Drop(key)) == (if s.closing then gone else s)
  {
    hide Shaped;
  }

  /** A goroutine that answers gives the answer it was handed; one that gives up or serves gives its own. */
  lemma AnsweredAsDecided(s: State, k: nat, code: int)
    requires Shaped(s) && k < |s.tasks|
    ensures var t := s.tasks[k];
            && Step(s, Answer(k)) == (if t.Answering? then Answered(s, k, t.code) else s)
            && Step(s, Refuse(k, code)) == (if t.Choosing? then Answered(s, k, code) else s)
            && Step(s, Serve(k, code)) == (if t.Serving? then Answered(s, k, code) else s)
  {
    hide Shaped;
  }

  function Answered(s: State, k: nat, code: int): State
    requires k < |s.tasks| && !s.tasks[k].Finished?
  {
    s.(tasks := s.tasks[k := Finished], replies := s.replies + [Reply(s.tasks[k].serial, code)])
  }

  /** App-servers that never answer, and a router that serves nothing itself and refuses with an error. */
  predicate Unanswering(a: Action) {
    !a.Respond? && !a.Serve? && (a.Refuse? ==> a.code != 0)
  }

  ghost predicate OnlyErrors(s: State) {
    && (forall r :: r in s.replies ==> r.code != 0)
    && (forall t :: t in s.tasks && t.Answering? ==> t.code != 0)
  }

  lemma StepGivesErrors(s: State, a: Action)
    requires Shaped(s) && OnlyErrors(s) && Unanswering(a)
    ensures OnlyErrors(Step(s, a))
  {
    hide Shaped;
  }

  /** A client gets an answer that is not an error only if an app-server gave one, or the router served it itself. */
  lemma {:induction false} OnlyAppServersAnswer(spending: bool, actions: seq<Action>)
    requires forall i :: 0 <= i < |actions| ==> Unanswering(actions[i])
    ensures OnlyErrors(Run(spending, actions))
  {
    hide Balanced, Shaped, Step;
    if actions != [] {
      var front, a := actions[..|actions| - 1], actions[|actions| - 1];
      OnlyAppServersAnswer(spending, front);
      BalancedIs(Run(spending, front), 0);
      hide OnlyErrors;
      StepGivesErrors(Run(spending, front), a);
    }
  }
}
