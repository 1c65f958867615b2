/**
  Requests that are never answered: those robbed of their route by another's failing send, and those whose route is
  inserted after the router's last sweep.
*/
module LostRequests {
  import opened Common
  import opened Multiplexer
  import opened MultiplexerRuns

  // ---- requests no goroutine will answer ----

  /** No goroutine owes the request an answer, and none of its sends can still fail. */
  predicate Dormant(s: State, serial: nat) {
    Tasks(s, serial) == 0 && Sending(serial) !in s.tasks
  }

  /** The pieces that take routes out of the table to answer them. */
  predicate Takes(a: Action) {
    a.Respond? || a.Expire? || a.Drop?
  }

  lemma NotOwed(s: State, k: nat, serial: nat)
    requires Dormant(s, serial) && k < |s.tasks|
    ensures s.tasks[k].Finished? || s.tasks[k].serial != serial
  {
    if Owes(serial)(s.tasks[k]) {
      CountPositive(s.tasks, k, Owes(serial));
    }
    assert s.tasks[k] in s.tasks;
  }

  /** Whatever becomes of the other requests' goroutines, one that is settled with stays so. */
  lemma {:induction false} NoneOwe(tasks: seq<Task>, serial: nat)
    requires forall k :: 0 <= k < |tasks| ==> tasks[k].Finished? || tasks[k].serial != serial
    ensures Count(tasks, Owes(serial)) == 0 && Sending(serial) !in tasks
  {
    if tasks != [] {
      NoneOwe(tasks[..|tasks| - 1], serial);
      assert tasks == tasks[..|tasks| - 1] + [tasks[|tasks| - 1]];
    }
  }

  lemma {:induction false} NoReplyAdded(replies: seq<Reply>, more: seq<Reply>, serial: nat)
    requires forall k :: 0 <= k < |more| ==> more[k].serial != serial
    ensures Count(replies + more, Answers(serial)) == Count(replies, Answers(serial))
  {
    if more == [] {
      assert replies + more == replies;
    } else {
      var front, last := more[..|more| - 1], more[|more| - 1];
      NoReplyAdded(replies, front, serial);
      assert replies + more == replies + front + [last];
      CountOfAppend(replies + front, last, Answers(serial));
    }
  }

  /** A piece that takes routes or lets a request in leaves the old goroutines and answers alone. */
  lemma OthersComeAfter(s: State, a: Action)
    requires Shaped(s) && (a.Arrive? || a.Close? || Takes(a))
    ensures var s' := Step(s, a);
            && s.tasks <= s'.tasks && |s'.tasks| <= |s.tasks| + 1
            && (|s'.tasks| > |s.tasks| ==>
                  var t := s'.tasks[|s.tasks|];
                  && !t.Finished?
                  && (t.serial == |s.requests| ||
                       (Takes(a) && a.key in s.routes && t.serial == s.routes[a.key].serial)))
            && (s'.replies == s.replies || s'.replies == s.replies + [Reply(|s.requests|, SHUTTING_DOWN)])
            && (forall key :: key in s'.routes ==> key in s.routes && s'.routes[key] == s.routes[key])
  {
    IsShaped(s);
    hide Shaped;
  }

  /** One piece: what it does to the goroutines, answers and routes of a request it does not concern. */
  ghost predicate LeavesAlone(s: State, s': State, serial: nat)
    requires serial < |s.requests|
  {
    && (forall k :: 0 <= k < |s'.tasks| ==> s'.tasks[k].Finished? || s'.tasks[k].serial != serial)
    && s.replies <= s'.replies && (forall k :: |s.replies| <= k < |s'.replies| ==> s'.replies[k].serial != serial)
    && serial < |s'.requests| && Routes(s', serial) <= Routes(s, serial)
  }

  lemma NobodyServes(s: State, serial: nat)
    requires Dormant(s, serial)
    ensures forall k :: 0 <= k < |s.tasks| ==> s.tasks[k].Finished? || s.tasks[k].serial != serial
  {
    forall k | 0 <= k < |s.tasks|
      ensures s.tasks[k].Finished? || s.tasks[k].serial != serial
    {
      NotOwed(s, k, serial);
    }
  }

  lemma TouchingOneLeavesAlone(s: State, s': State, k: nat, serial: nat)
    requires k < |s.tasks| && TouchesOne(s, s', k) && serial < |s.requests|
    requires forall j :: 0 <= j < |s.tasks| ==> s.tasks[j].Finished? || s.tasks[j].serial != serial
    ensures LeavesAlone(s, s', serial)
  {
  }

  lemma StepLeavesAlone(s: State, a: Action, serial: nat)
    requires Shaped(s) && serial < |s.requests| && Dormant(s, serial) && (Takes(a) ==> Routes(s, serial) == 0)
    ensures LeavesAlone(s, Step(s, a), serial)
  {
    NobodyServes(s, serial);
    if Takes(a) {
      TakingLeavesAlone(s, a, serial);
    } else if a.Arrive? || a.Close? {
      OthersComeAfter(s, a);
      StepKeepsShaped(s, a);
      hide Step, Shaped, Dormant;
    } else if a.task < |s.tasks| {
      if Step(s, a) == s {
        hide Step, Shaped, Dormant;
      } else {
        if a.Insert? { InsertTouchesOne(s, a.task, a.expiresAt); }
        else if a.Sent? && !a.ok { SendFailedTouchesOne(s, a.task); }
        else { PieceTouchesOne(s, a.task, a); }
        hide Step, Shaped, Dormant, TouchesOne, LeavesAlone;
        TouchingOneLeavesAlone(s, Step(s, a), a.task, serial);
      }
    }
  }

  lemma TakingLeavesAlone(s: State, a: Action, serial: nat)
    requires Shaped(s) && serial < |s.requests| && Takes(a) && Routes(s, serial) == 0
    requires forall k :: 0 <= k < |s.tasks| ==> s.tasks[k].Finished? || s.tasks[k].serial != serial
    ensures LeavesAlone(s, Step(s, a), serial)
  {
    OthersComeAfter(s, a);
    StepKeepsShaped(s, a);
    if a.key in s.routes {
      KeyOfRoute(s, a.key);
    }
    hide Step, Shaped;
  }

  lemma StepStaysDormant(s: State, a: Action, serial: nat)
    requires Balanced(s) && serial < |s.requests| && Dormant(s, serial)
    requires Takes(a) ==> Routes(s, serial) == 0
    ensures var s' := Step(s, a);
            && serial < |s'.requests| && Dormant(s', serial) && Replies(s', serial) == Replies(s, serial)
            && Routes(s', serial) <= Routes(s, serial)
  {
    BalancedIs(s, serial);
    var s' := Step(s, a);
    StepLeavesAlone(s, a, serial);
    hide Step, Balanced, Shaped, Dormant;
    NoReplyAdded(s.replies, s'.replies[|s.replies|..], serial);
    assert s'.replies == s.replies + s'.replies[|s.replies|..];
    NoneOwe(s'.tasks, serial);
    IsDormant(s', serial);
  }

  lemma IsDormant(s: State, serial: nat)
    requires Count(s.tasks, Owes(serial)) == 0 && Sending(serial) !in s.tasks
    ensures Dormant(s, serial)
  {
  }

  /** A dormant request without a route, or whose route is never taken again, gets no further answer. */
  lemma {:induction false} DormantStaysSilent(s: State, actions: seq<Action>, serial: nat)
    requires Balanced(s) && serial < |s.requests| && Dormant(s, serial)
    requires Routes(s, serial) == 0 || forall i :: 0 <= i < |actions| ==> !Takes(actions[i])
    ensures var s' := Steps(s, actions);
            && serial < |s'.requests| && Dormant(s', serial) && Replies(s', serial) == Replies(s, serial)
            && Routes(s', serial) <= Routes(s, serial)
  {
    if actions != [] {
      var front := actions[..|actions| - 1];
      DormantStaysSilent(s, front, serial);
      StepStaysDormant(Steps(s, front), actions[|actions| - 1], serial);
    }
  }

  // ---- robbed requests ----

  /**
    A send failing under an id that a newer request reuses takes the newer one's route. Then the newer request is never
    answered, whatever happens, if and only if none of its own sends is still under way to fail in turn.
  */
  lemma RobbedRequestIsNeverAnswered(s: State, k: nat, victim: nat)
    requires Balanced(s) && k < |s.tasks| && s.tasks[k].Sending? && victim < |s.requests|
    requires victim != s.tasks[k].serial && s.requests[victim].key == s.requests[s.tasks[k].serial].key
    requires Routes(s, victim) == 1 && Late(s, victim) == 0
    ensures var s' := Step(s, Sent(k, false));
            && Balanced(s')
            && ((forall actions :: Silent(s', actions, victim)) <==> Sending(victim) !in s.tasks)
  {
    var s' := Step(s, Sent(k, false));
    StepKeepsBalanced(s, Sent(k, false));
    AfterRobbery(s, k, victim);
    hide Balanced, Step, Routes, Tasks, Replies, Late;
    SendingsKept(s.tasks, k, victim);
    if Sending(victim) in s.tasks {
      var j :| 0 <= j < |s'.tasks| && s'.tasks[j] == Sending(victim);
      SecondFailureAnswers(s', j, victim);
    } else {
      forall actions
        ensures Silent(s', actions, victim)
      {
        DormantStaysSilent(s', actions, victim);
      }
    }
  }

  lemma SendingsKept(tasks: seq<Task>, k: nat, victim: nat)
    requires k < |tasks| && tasks[k] != Sending(victim)
    ensures Sending(victim) in tasks[k := Finished] <==> Sending(victim) in tasks
  {
    if Sending(victim) in tasks {
      var j :| 0 <= j < |tasks| && tasks[j] == Sending(victim);
      assert tasks[k := Finished][j] == Sending(victim);
    }
  }

  lemma OnlyItsRoute(s: State, serial: nat)
    requires serial < |s.requests| && Conserved(s, serial) && Routes(s, serial) == 1 && Late(s, serial) == 0
    ensures Tasks(s, serial) == Replies(s, serial) == 0
    ensures s.requests[serial].key in s.routes && s.routes[s.requests[serial].key].serial == serial
  {
    hide Tasks, Replies, Late, Stolen;
  }

  lemma FailedSendIsFinished(s: State, k: nat)
    requires k < |s.tasks| && s.tasks[k].Sending? && s.tasks[k].serial < |s.requests|
    ensures OnSendFailed(s, k).tasks == s.tasks[k := Finished]
  {
    SendFailedIs(s, k);
    hide OnSendFailed;
  }

  lemma NoRouteLeft(s: State, serial: nat)
    requires serial < |s.requests| && s.requests[serial].key !in s.routes
    ensures Routes(s, serial) == 0
  {
  }

  lemma AfterRobbery(s: State, k: nat, victim: nat)
    requires Balanced(s) && k < |s.tasks| && s.tasks[k].Sending? && victim < |s.requests|
    requires victim != s.tasks[k].serial && s.requests[victim].key == s.requests[s.tasks[k].serial].key
    requires Routes(s, victim) == 1 && Late(s, victim) == 0
    ensures var s' := Step(s, Sent(k, false));
            && s'.requests == s.requests && s'.tasks == s.tasks[k := Finished]
            && Routes(s', victim) == Tasks(s', victim) == Replies(s', victim) == 0
  {
    hide *;
    BalancedIs(s, victim);
    OnlyItsRoute(s, victim);
    FailedSendIs(s, k);
    FailedSendIsFinished(s, k);
    SendFailedCounts(s, k, victim);
    NoRouteLeft(OnSendFailed(s, k), victim);
  }

  /** After these pieces the request still has no answer. */
  ghost predicate Silent(s: State, actions: seq<Action>, serial: nat) {
    Balanced(s) && serial < |Steps(s, actions).requests| && Replies(Steps(s, actions), serial) == 0
  }

  lemma SecondFailureAnswers(s: State, j: nat, serial: nat)
    requires Balanced(s) && j < |s.tasks| && s.tasks[j] == Sending(serial) && serial < |s.requests|
    ensures !Silent(s, [Sent(j, false)], serial)
  {
    StepsOneMore(s, [], Sent(j, false));
    assert [] + [Sent(j, false)] == [Sent(j, false)];
    BalancedIs(s, serial);
    FailedSendIs(s, j);
    hide Balanced, Shaped;
    SendFailedCounts(s, j, serial);
  }

  // ---- shutdown ----

  /**
    Once the router is closing and its last sweep is over, the table stays empty whatever happens if and only if no
    goroutine is between the closing check and the insertion of its route.
  */
  lemma ShutdownIsComplete(s: State)
    requires Balanced(s) && s.closing && s.routes == map[]
    ensures (forall actions :: Steps(s, actions).routes == map[]) <==>
              forall k :: 0 <= k < |s.tasks| ==> !s.tasks[k].Checked?
  {
    if k :| 0 <= k < |s.tasks| && s.tasks[k].Checked? {
      var actions := [Insert(k, 0)];
      StepsOneMore(s, [], Insert(k, 0));
      assert [] + [Insert(k, 0)] == actions;
      BalancedIs(s, 0);
      IsShaped(s);
      hide Balanced, Shaped;
      assert s.requests[s.tasks[k].serial].key in Steps(s, actions).routes;
    } else {
      forall actions
        ensures Steps(s, actions).routes == map[]
      {
        TableStaysEmpty(s, actions);
      }
    }
  }

  predicate Emptied(s: State) {
    s.closing && s.routes == map[] && forall k :: 0 <= k < |s.tasks| ==> !s.tasks[k].Checked?
  }

  lemma StepStaysEmptied(s: State, a: Action)
    requires Shaped(s) && Emptied(s)
    ensures Emptied(Step(s, a))
  {
    IsShaped(s);
    hide Shaped;
  }

  lemma {:induction false} TableStaysEmpty(s: State, actions: seq<Action>)
    requires Balanced(s) && Emptied(s)
    ensures Emptied(Steps(s, actions))
  {
    if actions != [] {
      var front := actions[..|actions| - 1];
      TableStaysEmpty(s, front);
      BalancedIs(Steps(s, front), 0);
      StepStaysEmptied(Steps(s, front), actions[|actions| - 1]);
    }
  }

  /**
    Otherwise that goroutine's request can be lost: with its route inserted and its send done, and the loops that take
    routes from the table stopped by the shutdown, no continuation answers it.
  */
  lemma StrandedRequestIsNeverAnswered(s: State, k: nat, expiresAt: int, actions: seq<Action>)
    requires Balanced(s) && s.closing && s.routes == map[] && k < |s.tasks| && s.tasks[k].Checked?
    requires Sending(s.tasks[k].serial) !in s.tasks
    requires forall i :: 0 <= i < |actions| ==> !Takes(actions[i])
    ensures var serial := s.tasks[k].serial;
            var s' := Steps(s, [Insert(k, expiresAt), Sent(k, true)]);
            && serial < |s'.requests| && Routes(s', serial) == 1
            && serial < |Steps(s', actions).requests| && Replies(Steps(s', actions), serial) == Replies(s, serial)
  {
    var serial := s.tasks[k].serial;
    Stranded(s, k, expiresAt);
    DormantStaysSilent(Steps(s, [Insert(k, expiresAt), Sent(k, true)]), actions, serial);
  }

  lemma TwoSteps(s: State, a: Action, b: Action)
    requires Balanced(s)
    ensures Balanced(Step(s, a)) && Steps(s, [a, b]) == Step(Step(s, a), b)
  {
    StepKeepsBalanced(s, a);
    assert [a] == [] + [a] && [a, b] == [a] + [b];
    StepsOneMore(s, [], a);
    StepsOneMore(s, [a], b);
  }

  lemma InsertedAndSent(s: State, k: nat, expiresAt: int)
    requires Shaped(s) && s.routes == map[] && k < |s.tasks| && s.tasks[k].Checked?
    requires Shaped(Step(s, Insert(k, expiresAt)))
    ensures var s', serial := Step(Step(s, Insert(k, expiresAt)), Sent(k, true)), s.tasks[k].serial;
            && serial < |s.requests| && s'.requests == s.requests && s'.tasks == s.tasks[k := Finished]
            && s'.replies == s.replies && Routes(s', serial) == 1 && s'.closing == s.closing
  {
    IsShaped(s);
    hide Shaped;
    var s1 := Step(s, Insert(k, expiresAt));
    assert s1.tasks == s.tasks[k := Sending(s.tasks[k].serial)];
    assert Step(s1, Sent(k, true)).tasks == s.tasks[k := Finished];
  }

  lemma Stranded(s: State, k: nat, expiresAt: int)
    requires Balanced(s) && s.routes == map[] && k < |s.tasks| && s.tasks[k].Checked?
    requires Sending(s.tasks[k].serial) !in s.tasks
    ensures var serial := s.tasks[k].serial;
            var s' := Steps(s, [Insert(k, expiresAt), Sent(k, true)]);
            && serial < |s'.requests| && Routes(s', serial) == 1 && Dormant(s', serial) && s'.closing == s.closing
            && Replies(s', serial) == Replies(s, serial)
  {
    var serial := s.tasks[k].serial;
    BalancedIs(s, serial);
    IsShaped(s);
    BalancedIs(s, serial);
    TwoSteps(s, Insert(k, expiresAt), Sent(k, true));
    BalancedIs(Step(s, Insert(k, expiresAt)), serial);
    InsertedAndSent(s, k, expiresAt);
    hide Balanced, Shaped, Steps, Step;
    CountPositive(s.tasks, k, Owes(serial));
    CountOfUpdate(s.tasks, k, Finished, Owes(serial));
    SendingsKept(s.tasks, k, serial);
  }

  // ---- both happen ----

  const READ := Request("1", "thread/read", "")

  /** An open router with these requests, goroutines, routes and forwards, that has answered nothing. */
  function At(requests: seq<Request>, tasks: seq<Task>, routes: map<string, Route>, forwards: seq<Forward>): State {
    State(false, false, requests, routes, tasks, [], forwards, [], [])
  }

  function Only(serial: nat, expiresAt: int): map<string, Route> {
    map["1" := Route(serial, "a", {}, expiresAt)]
  }

  /** One read, its goroutine this far. */
  function One(task: Task): State { At([READ], [task], map[], []) }

  function UnderWay(): State { At([READ], [Sending(0)], Only(0, 5), [Forward(0, "a")]) }

  /** The read's route is swept while it is still being sent. */
  function SweptEarly(): State { At([READ], [Sending(0), Answering(0, EXPIRED)], map[], [Forward(0, "a")]) }

  /** A second read under the first one's id, its goroutine this far. */
  function Two(task: Task): State {
    At([READ, READ], [Sending(0), Answering(0, EXPIRED), task], map[], [Forward(0, "a")])
  }

  function BothForwarded(task: Task): State {
    At([READ, READ], [Sending(0), Answering(0, EXPIRED), task], Only(1, 9), [Forward(0, "a"), Forward(1, "a")])
  }

  function Overtaken(): State { BothForwarded(Finished) }

  /** The router closing with one read past its closing check. */
  function Closing(): State { One(Checked(0, "a", {})).(closing := true) }

  predicate LeadsTo(s: State, a: Action, s': State) {
    Shaped(s) && Step(s, a) == s'
  }

  lemma Then(actions: seq<Action>, s: State, a: Action, s': State) returns (more: seq<Action>)
    requires Run(false, actions) == s && LeadsTo(s, a, s')
    ensures more == actions + [a] && Run(false, more) == s'
  {
    more := actions + [a];
    StartIsBalanced(false);
    StepsOneMore(Start(false), actions, a);
  }

  lemma NothingYet()
    ensures Run(false, []) == Start(false)
  {
    StartIsBalanced(false);
  }

  lemma FirstRead()
    ensures LeadsTo(Start(false), Arrive(READ), One(Choosing(0, {})))
    ensures LeadsTo(One(Choosing(0, {})), Choose(0, "a"), One(Forwarding(0, "a", {})))
    ensures LeadsTo(One(Forwarding(0, "a", {})), Check(0, true), One(Checked(0, "a", {})))
  {
  }

  lemma FirstReadIsInterrupted()
    ensures LeadsTo(One(Checked(0, "a", {})), Close, Closing())
  {
  }

  lemma FirstReadIsSent()
    ensures LeadsTo(One(Checked(0, "a", {})), Insert(0, 5), UnderWay())
    ensures LeadsTo(UnderWay(), Expire("1", 5), SweptEarly())
  {
  }

  lemma SecondRead()
    ensures LeadsTo(SweptEarly(), Arrive(READ), Two(Choosing(1, {})))
    ensures LeadsTo(Two(Choosing(1, {})), Choose(2, "a"), Two(Forwarding(1, "a", {})))
    ensures LeadsTo(Two(Forwarding(1, "a", {})), Check(2, true), Two(Checked(1, "a", {})))
  {
  }

  lemma SecondReadIsSent()
    ensures LeadsTo(Two(Checked(1, "a", {})), Insert(2, 9), BothForwarded(Sending(1)))
    ensures LeadsTo(BothForwarded(Sending(1)), Sent(2, true), Overtaken())
  {
  }

  lemma PastCheckIsReached() returns (actions: seq<Action>)
    ensures Run(false, actions) == One(Checked(0, "a", {}))
  {
    NothingYet();
    FirstRead();
    hide *;
    actions := Then([], Start(false), Arrive(READ), One(Choosing(0, {})));
    actions := Then(actions, One(Choosing(0, {})), Choose(0, "a"), One(Forwarding(0, "a", {})));
    actions := Then(actions, One(Forwarding(0, "a", {})), Check(0, true), One(Checked(0, "a", {})));
  }

  lemma OvertakenIsReached() returns (actions: seq<Action>)
    ensures Run(false, actions) == Overtaken()
  {
    FirstReadIsSent();
    SecondRead();
    SecondReadIsSent();
    hide *;
    actions := PastCheckIsReached();
    actions := Then(actions, One(Checked(0, "a", {})), Insert(0, 5), UnderWay());
    actions := Then(actions, UnderWay(), Expire("1", 5), SweptEarly());
    actions := Then(actions, SweptEarly(), Arrive(READ), Two(Choosing(1, {})));
    actions := Then(actions, Two(Choosing(1, {})), Choose(2, "a"), Two(Forwarding(1, "a", {})));
    actions := Then(actions, Two(Forwarding(1, "a", {})), Check(2, true), Two(Checked(1, "a", {})));
    actions := Then(actions, Two(Checked(1, "a", {})), Insert(2, 9), BothForwarded(Sending(1)));
    actions := Then(actions, BothForwarded(Sending(1)), Sent(2, true), Overtaken());
  }

  lemma ClosingIsReached() returns (actions: seq<Action>)
    ensures Run(false, actions) == Closing()
  {
    FirstReadIsInterrupted();
    hide *;
    actions := PastCheckIsReached();
    actions := Then(actions, One(Checked(0, "a", {})), Close, Closing());
  }

  /** After this run the request is never answered, whatever follows. */
  ghost predicate Lost(actions: seq<Action>, serial: nat) {
    serial < |Run(false, actions).requests| && forall more :: Silent(Run(false, actions), more, serial)
  }

  lemma OvertakenCanBeRobbed()
    ensures var s := Overtaken();
            && |s.tasks| == 3 && s.tasks[0] == Sending(0) && Sending(1) !in s.tasks
            && s.requests == [READ, READ] && Routes(s, 1) == 1 && Late(s, 1) == 0
  {
  }

  /** There is a run after which a request is never answered, whatever follows. */
  lemma RobbingHappens()
    ensures exists actions, serial: nat :: Lost(actions, serial)
  {
    var actions := OvertakenIsReached();
    OvertakenCanBeRobbed();
    StartIsBalanced(false);
    hide Overtaken, Balanced, Step, Routes, Late, Steps, Silent;
    var s := Overtaken();
    RobbedRequestIsNeverAnswered(s, 0, 1);
    AfterRobbery(s, 0, 1);
    StepsOneMore(Start(false), actions, Sent(0, false));
    var robbed := actions + [Sent(0, false)];
    BalancedIs(s, 1);
    assert Run(false, robbed) == Step(s, Sent(0, false));
    hide Run;
    assert Lost(robbed, 1);
  }

  /** After this run of a shutdown the request stays in the table, unanswered unless something takes it from there. */
  ghost predicate LeftBehind(actions: seq<Action>, serial: nat) {
    var s := Run(false, actions);
    && s.closing && serial < |s.requests| && Routes(s, serial) == 1
    && forall more :: NothingTakes(more) ==> Silent(s, more, serial)
  }

  predicate NothingTakes(actions: seq<Action>) {
    forall i :: 0 <= i < |actions| ==> !Takes(actions[i])
  }

  /** There is a run of a shutdown that leaves a request behind. */
  lemma StrandingHappens()
    ensures exists actions, serial: nat :: LeftBehind(actions, serial)
  {
    var actions := ClosingIsReached();
    StartIsBalanced(false);
    var s, pieces := Closing(), [Insert(0, 9), Sent(0, true)];
    assert |s.tasks| == 1 && s.tasks[0] == Checked(0, "a", {}) && s.routes == map[] && s.closing && s.replies == [];
    assert Sending(0) !in s.tasks;
    assert Replies(s, 0) == 0;
    StepsOfConcat(Start(false), actions, pieces);
    assert Run(false, actions + pieces) == Steps(s, pieces);
    hide Run, Closing, Balanced, Steps, Replies, Routes, Dormant;
    Stranded(s, 0, 9);
    var s' := Run(false, actions + pieces);
    forall more | NothingTakes(more)
      ensures Silent(s', more, 0)
    {
      DormantStaysSilent(s', more, 0);
    }
    assert LeftBehind(actions + pieces, 0);
  }
}
