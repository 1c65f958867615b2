/**
  Usage-limit failover ends. Over a fixed set of accounts every piece that takes a request further uses up some of a
  bounded weight, as long as any is left some piece can take it further, and when none is left it has been answered.
*/
module FailoverEnds {
  import opened Common
  import opened Multiplexer
  import opened MultiplexerRuns
  import opened Failover

  // ---- what a request has left to go through ----

  /** Each account not yet excluded may cost a choice, a check, an insertion, a wait and a retry. */
  function TaskWeight(accounts: set<string>, serial: nat): Task -> nat {
    (t: Task) =>
      if t.Finished? || t.serial != serial then 0
      else
        match t
        case Serving(_) => 1
        case Answering(_, _) => 1
        case Choosing(_, excluded) => 5 * |accounts - excluded| + (if excluded == {} then 5 else 4)
        case Forwarding(_, _, excluded) => 5 * |accounts - excluded| + 3
        case Checked(_, _, excluded) => 5 * |accounts - excluded| + 2
        case Sending(_) => 0
  }

  function RouteWeight(s: State, accounts: set<string>, serial: nat): nat
    requires serial < |s.requests|
  {
    if Routes(s, serial) == 1 then 5 * |accounts - s.routes[s.requests[serial].key].excluded| + 1 else 0
  }

  function Weight(s: State, accounts: set<string>, serial: nat): nat
    requires serial < |s.requests|
  {
    Weigh(s.tasks, TaskWeight(accounts, serial)) + RouteWeight(s, accounts, serial)
  }

  /** Only these accounts were chosen for what is still under way. */
  ghost predicate Within(s: State, accounts: set<string>) {
    && (forall k :: 0 <= k < |s.tasks| && (s.tasks[k].Forwarding? || s.tasks[k].Checked?) ==>
          s.tasks[k].account in accounts)
    && (forall key :: key in s.routes ==> s.routes[key].account in accounts)
  }

  predicate ChoosesWithin(a: Action, accounts: set<string>) {
    a.Choose? ==> a.account in accounts
  }

  /** A step took the request further: a goroutine that owes it an answer went on, or its route was taken. */
  ghost predicate Advances(s: State, s': State, serial: nat)
    requires serial < |s.requests|
  {
    || (exists k :: 0 <= k < |s.tasks| && k < |s'.tasks| && Owes(serial)(s.tasks[k]) && s'.tasks[k] != s.tasks[k])
    || (Routes(s, serial) == 1 && serial < |s'.requests| && Routes(s', serial) == 0)
  }

  // ---- one piece ----

  lemma OneAccountLess(accounts: set<string>, excluded: set<string>, account: string)
    requires account in accounts && account !in excluded
    ensures |accounts - (excluded + {account})| + 1 == |accounts - excluded|
  {
    assert accounts - excluded == (accounts - (excluded + {account})) + {account};
  }

  lemma PutWeighs(s: State, k: nat, t: Task, accounts: set<string>, serial: nat)
    requires k < |s.tasks| && serial < |s.requests|
    ensures var w := TaskWeight(accounts, serial);
            Weight(Put(s, k, t), accounts, serial) + w(s.tasks[k]) == Weight(s, accounts, serial) + w(t)
  {
    WeighOfUpdate(s.tasks, k, t, TaskWeight(accounts, serial));
  }

  /** How the pieces in which a task goes on alone change it. */
  lemma PieceChanges(s: State, k: nat, a: Action)
    requires Shaped(s) && k < |s.tasks|
    requires a.Serve? || a.Answer? || a.Choose? || a.Refuse? || a.SkipOwner? || a.Check? || a == Sent(k, true)
    requires a.task == k
    ensures var s', t := Step(s, a), s.tasks[k];
            && s'.routes == s.routes && s'.requests == s.requests && |s'.tasks| == |s.tasks|
            && s'.tasks == s.tasks[k := s'.tasks[k]]
            && (s'.tasks[k] == t
                || (s'.tasks[k].Finished? && (t.Choosing? ==> a.Refuse?))
                || (t.Choosing? && t.excluded == {} && a.SkipOwner? && s'.tasks[k] == Choosing(t.serial, {a.owner}))
                || (t.Choosing? && a.Choose? && a.account !in t.excluded
                    && s'.tasks[k] == Forwarding(t.serial, a.account, t.excluded))
                || (t.Forwarding? && s'.tasks[k] == Checked(t.serial, t.account, t.excluded)))
  {
    hide Shaped, OnArrive, OnInsert, OnSendFailed, OnRespond, Evict;
    IsShaped(s);
  }

  lemma WeightReads(s: State, s': State, accounts: set<string>, serial: nat)
    requires serial < |s.requests| && s'.requests == s.requests && s'.tasks == s.tasks && s'.routes == s.routes
    ensures Weight(s', accounts, serial) == Weight(s, accounts, serial)
  {
  }

  lemma PieceWeighs(s: State, k: nat, a: Action, accounts: set<string>, serial: nat)
    requires Shaped(s) && k < |s.tasks| && serial < |s.requests|
    requires a.Serve? || a.Answer? || a.Choose? || a.Refuse? || a.SkipOwner? || a.Check? || a == Sent(k, true)
    requires a.task == k
    ensures var s' := Step(s, a);
            && s'.requests == s.requests
            && Weight(s', accounts, serial) <= Weight(s, accounts, serial)
            && (Owes(serial)(s.tasks[k]) && s'.tasks[k] != s.tasks[k] ==>
                  Weight(s', accounts, serial) < Weight(s, accounts, serial))
  {
    PieceChanges(s, k, a);
    var s', t := Step(s, a), s.tasks[k];
    var t' := s'.tasks[k];
    hide Step, Shaped, Weight;
    PutWeighs(s, k, t', accounts, serial);
    WeightReads(Put(s, k, t'), s', accounts, serial);
    if a.SkipOwner? {
      SubsetIsSmaller(accounts - {a.owner}, accounts - {});
    }
  }

  lemma InsertWeighs(s: State, k: nat, expiresAt: int, accounts: set<string>, serial: nat)
    requires Shaped(s) && k < |s.tasks| && s.tasks[k].Checked? && s.tasks[k].serial < |s.requests|
    requires serial < |s.requests|
    requires Routes(s, serial) + Tasks(s, serial) <= 1
    ensures var s' := OnInsert(s, k, expiresAt);
            && s'.requests == s.requests
            && Weight(s', accounts, serial) <= Weight(s, accounts, serial)
            && (Owes(serial)(s.tasks[k]) ==> Weight(s', accounts, serial) < Weight(s, accounts, serial))
  {
    var t, s' := s.tasks[k], OnInsert(s, k, expiresAt);
    PutWeighs(s, k, s'.tasks[k], accounts, serial);
    hide Shaped, Weigh;
    if s.requests[t.serial].key in s.routes {
      WeightReads(Put(s, k, Finished), s', accounts, serial);
    } else if t.serial == serial {
      CountPositive(s.tasks, k, Owes(serial));
    }
  }

  lemma SendFailedWeighs(s: State, k: nat, accounts: set<string>, serial: nat)
    requires Shaped(s) && k < |s.tasks| && s.tasks[k].Sending? && s.tasks[k].serial < |s.requests|
    requires serial < |s.requests|
    ensures var s' := OnSendFailed(s, k);
            && s'.requests == s.requests
            && Weight(s', accounts, serial) <= Weight(s, accounts, serial)
            && (Routes(s, serial) == 1 && Routes(s', serial) == 0 ==>
                  Weight(s', accounts, serial) < Weight(s, accounts, serial))
  {
    SendFailedIs(s, k);
    PutWeighs(s, k, Finished, accounts, serial);
    hide Shaped, Weigh, OnSendFailed;
  }

  /** A route taken from the table for one new goroutine. */
  lemma TakenWeighs(s: State, key: string, t: Task, accounts: set<string>, serial: nat)
    requires Shaped(s) && key in s.routes && serial < |s.requests| && !t.Finished? && t.serial == s.routes[key].serial
    requires TaskWeight(accounts, t.serial)(t) <= 5 * |accounts - s.routes[key].excluded|
    ensures var s' := s.(routes := s.routes - {key}, tasks := s.tasks + [t]);
            && Weight(s', accounts, serial) <= Weight(s, accounts, serial)
            && (Routes(s, serial) == 1 && Routes(s', serial) == 0 ==>
                  Weight(s', accounts, serial) < Weight(s, accounts, serial))
  {
    KeyOfRoute(s, key);
    WeighOfAppend(s.tasks, t, TaskWeight(accounts, serial));
    hide Shaped, Weigh;
  }

  lemma RouteIsNew(s: State, key: string)
    requires Fresh(s) && key in s.routes
    ensures s.routes[key].account !in s.routes[key].excluded
  {
    assert RouteIsFresh(s, s.routes[key]);
  }

  lemma RespondWeighs(s: State, account: string, key: string, usageLimit: bool, accounts: set<string>, serial: nat)
    requires Shaped(s) && Fresh(s) && Within(s, accounts) && serial < |s.requests|
    requires key in s.routes && s.routes[key].account == account
    ensures var s' := Step(s, Respond(account, key, usageLimit));
            && s'.requests == s.requests
            && Weight(s', accounts, serial) <= Weight(s, accounts, serial)
            && (Routes(s, serial) == 1 && Routes(s', serial) == 0 ==>
                  Weight(s', accounts, serial) < Weight(s, accounts, serial))
  {
    RouteIsNew(s, key);
    var t := RespondTakes(s, account, key, usageLimit);
    assert s.routes[key].account in accounts;
    hide *;
    RetryWeighs(s, key, t, accounts);
    TakenWeighs(s, key, t, accounts, serial);
  }

  /** A response taken up: the route goes, for a goroutine that delivers it or one that retries elsewhere. */
  lemma RespondTakes(s: State, account: string, key: string, usageLimit: bool) returns (t: Task)
    requires Shaped(s) && key in s.routes && s.routes[key].account == account
    ensures t.Answering? || t == Choosing(s.routes[key].serial, s.routes[key].excluded + {s.routes[key].account})
    ensures t.serial == s.routes[key].serial
    ensures Step(s, Respond(account, key, usageLimit)) == s.(routes := s.routes - {key}, tasks := s.tasks + [t])
  {
    KeyOfRoute(s, key);
    hide Shaped;
    t := OnRespond(s, account, key, usageLimit).tasks[|s.tasks|];
  }

  /** A retry has one account less to go through than the wait it follows. */
  lemma RetryWeighs(s: State, key: string, t: Task, accounts: set<string>)
    requires key in s.routes && s.routes[key].account in accounts && s.routes[key].account !in s.routes[key].excluded
    requires t.Answering? || t == Choosing(s.routes[key].serial, s.routes[key].excluded + {s.routes[key].account})
    ensures TaskWeight(accounts, t.serial)(t) <= 5 * |accounts - s.routes[key].excluded|
  {
    OneAccountLess(accounts, s.routes[key].excluded, s.routes[key].account);
  }

  lemma EvictWeighs(s: State, key: string, accounts: set<string>, serial: nat)
    requires Shaped(s) && Fresh(s) && Within(s, accounts) && serial < |s.requests| && key in s.routes
    ensures var s' := Evict(s, key);
            && s'.requests == s.requests
            && Weight(s', accounts, serial) <= Weight(s, accounts, serial)
            && (Routes(s, serial) == 1 && Routes(s', serial) == 0 ==>
                  Weight(s', accounts, serial) < Weight(s, accounts, serial))
  {
    assert RouteIsFresh(s, s.routes[key]);
    hide Fresh, Shaped, Tried, Weight;
    OneAccountLess(accounts, s.routes[key].excluded, s.routes[key].account);
    TakenWeighs(s, key, Answering(s.routes[key].serial, EXPIRED), accounts, serial);
  }

  lemma ArriveWeighs(s: State, request: Request, accounts: set<string>, serial: nat)
    requires Shaped(s) && serial < |s.requests|
    ensures Weight(OnArrive(s, request), accounts, serial) == Weight(s, accounts, serial)
  {
    var t := if SelfServed(request.operation) then Serving(|s.requests|) else Choosing(|s.requests|, {});
    WeighOfAppend(s.tasks, t, TaskWeight(accounts, serial));
    hide Shaped, Weigh;
  }

  ghost predicate NeverRises(s: State, s': State, accounts: set<string>, serial: nat)
    requires serial < |s.requests|
  {
    && serial < |s'.requests|
    && Weight(s', accounts, serial) <= Weight(s, accounts, serial)
    && (Advances(s, s', serial) ==> Weight(s', accounts, serial) < Weight(s, accounts, serial))
  }

  predicate TakesRoutes(a: Action) {
    a.Respond? || a.Expire? || a.Drop?
  }

  lemma AdvancingIsTaking(s: State, s': State, serial: nat)
    requires serial < |s.requests| && s.tasks <= s'.tasks
    ensures Advances(s, s', serial) ==> Routes(s, serial) == 1 && serial < |s'.requests| && Routes(s', serial) == 0
  {
  }

  lemma RespondNeverRises(s: State, a: Action, accounts: set<string>, serial: nat)
    requires Shaped(s) && Fresh(s) && Within(s, accounts) && serial < |s.requests| && a.Respond?
    ensures NeverRises(s, Step(s, a), accounts, serial)
  {
    if a.key in s.routes && s.routes[a.key].account == a.account {
      OldTasksStay(s, a);
      AdvancingIsTaking(s, Step(s, a), serial);
      hide *;
      RespondWeighs(s, a.account, a.key, a.usageLimit, accounts, serial);
      NeverRisesIf(s, Step(s, a), accounts, serial);
    } else {
      NothingTaken(s, a.account, a.key, a.usageLimit);
    }
  }

  lemma EvictionNeverRises(s: State, a: Action, accounts: set<string>, serial: nat)
    requires Shaped(s) && Fresh(s) && Within(s, accounts) && serial < |s.requests| && (a.Expire? || a.Drop?)
    ensures NeverRises(s, Step(s, a), accounts, serial)
  {
    OldTasksStay(s, a);
    AdvancingIsTaking(s, Step(s, a), serial);
    if a.key in s.routes && Step(s, a) != s {
      assert Step(s, a) == Evict(s, a.key);
      hide *;
      EvictWeighs(s, a.key, accounts, serial);
      NeverRisesIf(s, Step(s, a), accounts, serial);
    }
  }

  lemma NeverRisesIf(s: State, s': State, accounts: set<string>, serial: nat)
    requires serial < |s.requests| && s'.requests == s.requests
    requires Advances(s, s', serial) ==> Routes(s, serial) == 1 && Routes(s', serial) == 0
    requires Weight(s', accounts, serial) <= Weight(s, accounts, serial)
    requires Routes(s, serial) == 1 && Routes(s', serial) == 0 ==>
               Weight(s', accounts, serial) < Weight(s, accounts, serial)
    ensures NeverRises(s, s', accounts, serial)
  {
    hide Weight, Advances, Routes;
  }

  lemma GoingOnNeverRises(s: State, a: Action, accounts: set<string>, serial: nat)
    requires Shaped(s) && serial < |s.requests| && Routes(s, serial) + Tasks(s, serial) <= 1
    requires !a.Arrive? && !a.Close? && !TakesRoutes(a) && a.task < |s.tasks|
    ensures NeverRises(s, Step(s, a), accounts, serial)
  {
    var k := a.task;
    OnlyOneGoesOn(s, a, k, serial);
    IsShaped(s);
    hide Shaped, Weight, OnInsert, OnSendFailed, Conclude, Routes, Tasks;
    if a.Insert? {
      if s.tasks[k].Checked? {
        InsertWeighs(s, k, a.expiresAt, accounts, serial);
      }
    } else if a.Sent? && !a.ok {
      if s.tasks[k].Sending? {
        SendFailedWeighs(s, k, accounts, serial);
      }
    } else {
      PieceWeighs(s, k, a, accounts, serial);
      hide Step;
    }
  }

  lemma WeightNeverRises(s: State, a: Action, accounts: set<string>, serial: nat)
    requires Balanced(s) && Fresh(s) && Within(s, accounts) && serial < |s.requests|
    ensures NeverRises(s, Step(s, a), accounts, serial)
  {
    BalancedIs(s, serial);
    assert Routes(s, serial) + Tasks(s, serial) <= 1;
    hide Balanced, Fresh, Within, Shaped, Conserved, Weight, OnArrive, Routes, Tasks;
    if a.Respond? {
      RespondNeverRises(s, a, accounts, serial);
    } else if a.Expire? || a.Drop? {
      EvictionNeverRises(s, a, accounts, serial);
    } else if a.Arrive? {
      ArriveWeighs(s, a.request, accounts, serial);
      ArrivingAdvancesNobody(s, a.request, serial);
      StepKeepsShaped(s, a);
    } else if a.Close? {
      WeightReads(s, Step(s, a), accounts, serial);
      ClosingAdvancesNobody(s, serial);
    } else if a.task < |s.tasks| {
      hide NeverRises, Step;
      GoingOnNeverRises(s, a, accounts, serial);
    } else {
      NobodyGoesOn(s, a);
      hide Step;
    }
  }

  lemma NobodyGoesOn(s: State, a: Action)
    requires Shaped(s) && !a.Arrive? && !a.Close? && !TakesRoutes(a) && a.task >= |s.tasks|
    ensures Step(s, a) == s
  {
  }

  lemma ClosingAdvancesNobody(s: State, serial: nat)
    requires serial < |s.requests|
    ensures !Advances(s, s.(closing := true), serial)
  {
  }

  lemma NothingTaken(s: State, account: string, key: string, usageLimit: bool)
    requires Shaped(s) && (key !in s.routes || s.routes[key].account != account)
    ensures OnRespond(s, account, key, usageLimit) == s
  {
  }

  lemma ArrivingAdvancesNobody(s: State, request: Request, serial: nat)
    requires Shaped(s) && serial < |s.requests|
    ensures !Advances(s, OnArrive(s, request), serial)
  {
  }

  lemma OtherTasksWait(s: State, a: Action, k: nat)
    requires Shaped(s) && k < |s.tasks|
    requires !a.Arrive? && !a.Close? && !a.Respond? && !a.Expire? && !a.Drop? && a.task == k
    ensures TouchesOne(s, Step(s, a), k)
  {
    if a.Insert? {
      if s.tasks[k].Checked? {
        InsertTouchesOne(s, k, a.expiresAt);
      }
    } else if a.Sent? && !a.ok {
      if s.tasks[k].Sending? {
        SendFailedTouchesOne(s, k);
      }
    } else {
      PieceTouchesOne(s, k, a);
    }
    hide Shaped, OnInsert, OnSendFailed, Conclude, Put;
  }

  /** Of the old goroutines only k goes on, and of its pieces only a failed send takes a route away. */
  lemma OnlyOneGoesOn(s: State, a: Action, k: nat, serial: nat)
    requires Shaped(s) && k < |s.tasks| && serial < |s.requests|
    requires !a.Arrive? && !a.Close? && !a.Respond? && !a.Expire? && !a.Drop? && a.task == k
    ensures var s' := Step(s, a);
            && |s'.tasks| == |s.tasks| && (forall j :: 0 <= j < |s.tasks| && j != k ==> s'.tasks[j] == s.tasks[j])
            && (!(a.Sent? && !a.ok) ==> Routes(s, serial) == 1 ==> serial < |s'.requests| && Routes(s', serial) == 1)
            && (s.tasks[k].Sending? ==> !Owes(serial)(s.tasks[k]))
  {
    OtherTasksWait(s, a, k);
    if a.Insert? {
      InsertKeepsRoutes(s, k, a.expiresAt);
    } else if !(a.Sent? && !a.ok) {
      PieceChanges(s, k, a);
    }
    hide Step, Shaped;
  }

  lemma InsertKeepsRoutes(s: State, k: nat, expiresAt: int)
    requires Shaped(s)
    ensures forall key :: key in s.routes ==>
              key in Step(s, Insert(k, expiresAt)).routes && Step(s, Insert(k, expiresAt)).routes[key] == s.routes[key]
  {
    IsShaped(s);
    hide Shaped;
  }

  lemma OldTasksStay(s: State, a: Action)
    requires Shaped(s) && (a.Arrive? || a.Close? || a.Respond? || a.Expire? || a.Drop?)
    ensures s.tasks <= Step(s, a).tasks
  {
    hide Shaped;
  }

  lemma StepStaysWithin(s: State, a: Action, accounts: set<string>)
    requires Shaped(s) && Within(s, accounts) && ChoosesWithin(a, accounts)
    ensures Within(Step(s, a), accounts)
  {
    IsShaped(s);
    hide Shaped;
    if a.Insert? {
      InsertStaysWithin(s, a.task, a.expiresAt, accounts);
    } else {
      FewerRoutes(s, a);
      forall k | 0 <= k < |Step(s, a).tasks| && (Step(s, a).tasks[k].Forwarding? || Step(s, a).tasks[k].Checked?)
        ensures Step(s, a).tasks[k].account in accounts
      {
        if k < |s.tasks| {
          OldTaskGoesOn(s, a, k);
          if s.tasks[k].Choosing? {
            ChoosingGoesOn(s, a, k);
          }
        } else {
          NewTaskIs(s, a, k);
        }
      }
      hide Step;
    }
  }

  lemma InsertStaysWithin(s: State, k: nat, expiresAt: int, accounts: set<string>)
    requires Shaped(s) && Within(s, accounts)
    ensures Within(Step(s, Insert(k, expiresAt)), accounts)
  {
    IsShaped(s);
    hide Shaped;
  }

  /** A goroutine that is choosing only ever forwards to what it chose, refuses, or skips the owner of a turn. */
  lemma ChoosingGoesOn(s: State, a: Action, k: nat)
    requires Shaped(s) && k < |s.tasks| && s.tasks[k].Choosing?
    ensures var s', t := Step(s, a), s.tasks[k];
            && k < |s'.tasks|
            && (s'.tasks[k] == t
                || (a.Refuse? && a.task == k && s' == Conclude(s, k, a.code))
                || (a.SkipOwner? && t.excluded == {} && s'.tasks[k] == Choosing(t.serial, {a.owner}))
                || (a.Choose? && a.account !in t.excluded
                    && s'.tasks[k] == Forwarding(t.serial, a.account, t.excluded)))
  {
    if a.Arrive? || a.Close? || a.Respond? || a.Expire? || a.Drop? {
      OldTasksStay(s, a);
    } else if a.task < |s.tasks| && a.task != k {
      OtherTasksWait(s, a, a.task);
    } else if a.task == k && !a.Insert? && !a.Sent? {
      PieceChanges(s, k, a);
    }
    hide Shaped, OnArrive, OnInsert, OnSendFailed, OnRespond, Evict, Put;
  }

  // ---- whole runs ----

  predicate ChooseWithin(actions: seq<Action>, accounts: set<string>) {
    forall i :: 0 <= i < |actions| ==> ChoosesWithin(actions[i], accounts)
  }

  /** How many pieces of a run took the request further. */
  ghost function Advanced(spending: bool, actions: seq<Action>, serial: nat): nat {
    if actions == [] then 0
    else
      var front := actions[..|actions| - 1];
      var s := Run(spending, front);
      Advanced(spending, front, serial) +
      (if serial < |s.requests| && Advances(s, Run(spending, actions), serial) then 1 else 0)
  }

  lemma RunOneMore(spending: bool, actions: seq<Action>)
    requires actions != []
    ensures Balanced(Run(spending, actions[..|actions| - 1]))
    ensures Run(spending, actions) == Step(Run(spending, actions[..|actions| - 1]), actions[|actions| - 1])
  {
    StartIsBalanced(spending);
    var front := actions[..|actions| - 1];
    assert actions == front + [actions[|actions| - 1]];
    StepsOneMore(Start(spending), front, actions[|actions| - 1]);
  }

  lemma {:induction false} RunsStayWithin(spending: bool, actions: seq<Action>, accounts: set<string>)
    requires ChooseWithin(actions, accounts)
    ensures Within(Run(spending, actions), accounts)
  {
    StartIsBalanced(spending);
    if actions != [] {
      var front, a := actions[..|actions| - 1], actions[|actions| - 1];
      RunsStayWithin(spending, front, accounts);
      RunOneMore(spending, actions);
      BalancedIs(Run(spending, front), 0);
      hide Run, Balanced, Shaped, Within;
      StepStaysWithin(Run(spending, front), a, accounts);
    }
  }

  lemma NewRequestWeighs(s: State, a: Action, accounts: set<string>, serial: nat)
    requires Balanced(s) && |s.requests| <= serial < |Step(s, a).requests|
    ensures Weight(Step(s, a), accounts, serial) <= 5 * |accounts| + 5
  {
    StepKeepsShaped(s, a);
    BalancedIs(s, 0);
    IsShaped(s);
    var s' := Step(s, a);
    assert a.Arrive? && serial == |s.requests| && s'.routes == s.routes;
    var w := TaskWeight(accounts, serial);
    WeighNothing(s.tasks, w);
    assert accounts - {} == accounts;
    if !s.closing {
      WeighOfAppend(s.tasks, s'.tasks[|s.tasks|], w);
    }
    hide Balanced, Weigh;
  }

  lemma {:induction false} WeighNothing(tasks: seq<Task>, w: Task -> nat)
    requires forall k :: 0 <= k < |tasks| ==> w(tasks[k]) == 0
    ensures Weigh(tasks, w) == 0
  {
    if tasks != [] {
      WeighNothing(tasks[..|tasks| - 1], w);
    }
  }

  /** Over a fixed set of accounts a request is taken further only a bounded number of times. */
  lemma {:induction false} AdvancesAreBounded(spending: bool, actions: seq<Action>, serial: nat, accounts: set<string>)
    requires ChooseWithin(actions, accounts)
    ensures var s := Run(spending, actions);
            if serial < |s.requests| then
              Advanced(spending, actions, serial) + Weight(s, accounts, serial) <= 5 * |accounts| + 5
            else Advanced(spending, actions, serial) == 0
  {
    StartIsBalanced(spending);
    if actions != [] {
      var front, a := actions[..|actions| - 1], actions[|actions| - 1];
      AdvancesAreBounded(spending, front, serial, accounts);
      RunsStayWithin(spending, front, accounts);
      RunsStayFresh(spending, front);
      RunOneMore(spending, actions);
      var s := Run(spending, front);
      BalancedIs(s, 0);
      StepKeepsShaped(s, a);
      hide Run, Balanced, Fresh, Within, Weight, Step, Shaped, Advances;
      if serial < |s.requests| {
        WeightNeverRises(s, a, accounts, serial);
      } else if serial < |Run(spending, actions).requests| {
        NewRequestWeighs(s, a, accounts, serial);
      }
    }
  }

  /** While a request has weight some piece takes it further, whoever may still be chosen. */
  lemma SomePieceIsEnabled(s: State, accounts: set<string>, serial: nat) returns (a: Action)
    requires Balanced(s) && serial < |s.requests| && Weight(s, accounts, serial) > 0
    ensures !a.Choose? && Advances(s, Step(s, a), serial)
  {
    BalancedIs(s, serial);
    IsShaped(s);
    hide Balanced, Shaped;
    if Routes(s, serial) == 1 {
      var key := s.requests[serial].key;
      a := Expire(key, s.routes[key].expiresAt);
    } else {
      var k := HeavyElement(s.tasks, TaskWeight(accounts, serial));
      a := NextPiece(s, k);
      OwedTaskGoesOn(s, k, a);
      assert Owes(serial)(s.tasks[k]);
    }
  }

  function NextPiece(s: State, k: nat): Action
    requires k < |s.tasks|
  {
    match s.tasks[k]
    case Serving(_) => Serve(k, 0)
    case Answering(_, _) => Answer(k)
    case Choosing(_, _) => Refuse(k, DEPLETED)
    case Forwarding(_, _, _) => Check(k, true)
    case _ => Insert(k, 0)
  }

  lemma OwedTaskGoesOn(s: State, k: nat, a: Action)
    requires Shaped(s) && k < |s.tasks| && !s.tasks[k].Finished? && !s.tasks[k].Sending? && a == NextPiece(s, k)
    ensures !a.Choose? && |Step(s, a).tasks| == |s.tasks| && Step(s, a).tasks[k] != s.tasks[k]
  {
    IsShaped(s);
    hide Shaped;
  }

  /** With every account tried and excluded a retry can only be answered with a refusal. */
  lemma ExhaustedIsRefused(s: State, k: nat, a: Action, accounts: set<string>)
    requires Shaped(s) && k < |s.tasks| && s.tasks[k].Choosing? && ChoosesWithin(a, accounts)
    requires accounts <= s.tasks[k].excluded && s.tasks[k].excluded != {}
    ensures var s' := Step(s, a);
            && k < |s'.tasks|
            && (s'.tasks[k] == s.tasks[k] ||
                 (a.Refuse? && a.task == k && s'.tasks[k].Finished?
                  && s'.replies == s.replies + [Reply(s.tasks[k].serial, a.code)]))
  {
    ChoosingGoesOn(s, a, k);
    hide Step, Shaped;
  }

  lemma WeightlessIsSettled(s: State, accounts: set<string>, serial: nat)
    requires Shaped(s) && serial < |s.requests|
    ensures Weight(s, accounts, serial) == 0 <==> Routes(s, serial) == 0 && Tasks(s, serial) == 0
  {
    hide Shaped;
    if Weigh(s.tasks, TaskWeight(accounts, serial)) > 0 {
      var k := HeavyElement(s.tasks, TaskWeight(accounts, serial));
      CountPositive(s.tasks, k, Owes(serial));
    }
    if Tasks(s, serial) > 0 {
      var k := OwingTask(s.tasks, serial);
      WeighAtLeast(s.tasks, k, TaskWeight(accounts, serial));
    }
  }

  lemma {:induction false} OwingTask(tasks: seq<Task>, serial: nat) returns (k: nat)
    requires Count(tasks, Owes(serial)) > 0
    ensures k < |tasks| && Owes(serial)(tasks[k])
  {
    k := |tasks| - 1;
    if !Owes(serial)(tasks[k]) {
      k := OwingTask(tasks[..|tasks| - 1], serial);
    }
  }

  /**
    Failover ends. In every run whose choices are among the given accounts a request is taken further at most 5 n + 5
    times. While it has weight left some piece takes it further, and once it has none it has been answered, but for
    what overtaken sends add and take away.
  */
  lemma FailoverEnds(spending: bool, actions: seq<Action>, serial: nat, accounts: set<string>)
    requires ChooseWithin(actions, accounts) && serial < |Run(spending, actions).requests|
    ensures var s := Run(spending, actions);
            && Advanced(spending, actions, serial) + Weight(s, accounts, serial) <= 5 * |accounts| + 5
            && (Weight(s, accounts, serial) > 0 ==> exists a: Action :: !a.Choose? && Advances(s, Step(s, a), serial))
            && (Weight(s, accounts, serial) == 0 ==> Replies(s, serial) + Stolen(s, serial) == 1 + Late(s, serial))
  {
    var s := Run(spending, actions);
    AdvancesAreBounded(spending, actions, serial, accounts);
    AnswersAreConserved(spending, actions, serial);
    BalancedIs(s, serial);
    hide Run, Advanced, Weight, Shaped, Balanced, Step, Replies, Tasks;
    WeightlessIsSettled(s, accounts, serial);
    if Weight(s, accounts, serial) > 0 {
      var a := SomePieceIsEnabled(s, accounts, serial);
    }
  }

  /** With uninterrupted sends a request has weight exactly while it is unanswered, and ends answered exactly once. */
  lemma ChainsEndInOneAnswer(spending: bool, moves: seq<Move>, serial: nat, accounts: set<string>)
    requires ChooseWithin(Pieces(moves), accounts) && serial < |Run(spending, Pieces(moves)).requests|
    ensures var s := Run(spending, Pieces(moves));
            && (Weight(s, accounts, serial) > 0 <==> Replies(s, serial) == 0)
            && (Weight(s, accounts, serial) == 0 <==> Replies(s, serial) == 1)
  {
    var s := Run(spending, Pieces(moves));
    AnsweredExactlyOnce(spending, moves, serial);
    BalancedIs(s, serial);
    hide Run, Weight, Shaped, Balanced, Replies, Tasks;
    WeightlessIsSettled(s, accounts, serial);
  }
}
