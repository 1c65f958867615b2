/** Usage-limit failover: no request is ever forwarded twice to one account. */
module Failover {
  import opened Common
  import opened Multiplexer
  import opened MultiplexerRuns

  function Tried(s: State, serial: nat): set<string> {
    set f | f in s.forwards && f.serial == serial :: f.account
  }

  predicate TaskIsFresh(s: State, t: Task) {
    match t
    case Choosing(serial, excluded) => Tried(s, serial) <= excluded
    case Forwarding(serial, account, excluded) => Tried(s, serial) <= excluded && account !in excluded
    case Checked(serial, account, excluded) => Tried(s, serial) <= excluded && account !in excluded
    case _ => true
  }

  predicate RouteIsFresh(s: State, r: Route) {
    r.account !in r.excluded && Tried(s, r.serial) <= r.excluded + {r.account}
  }

  ghost predicate Fresh(s: State) {
    && (forall k :: 0 <= k < |s.tasks| ==> TaskIsFresh(s, s.tasks[k]))
    && (forall key :: key in s.routes ==> RouteIsFresh(s, s.routes[key]))
    && (forall i, j :: 0 <= i < j < |s.forwards| && s.forwards[i].serial == s.forwards[j].serial ==>
          s.forwards[i].account != s.forwards[j].account)
    && (forall f :: f in s.forwards ==> f.serial < |s.requests|)
  }

  /** One step touches at most one old task, adds at most one, and only an insertion adds a route or a forward. */
  lemma OtherStepsKeepFresh(s: State, a: Action)
    requires Balanced(s) && Fresh(s) && !a.Insert?
    ensures Fresh(Step(s, a))
  {
    BalancedIs(s, 0);
    hide Balanced;
    StepKeepsShaped(s, a);
    hide Tried;
    NothingNewIsForwarded(s, a);
    var s' := Step(s, a);
    forall k | 0 <= k < |s'.tasks|
      ensures TaskIsFresh(s', s'.tasks[k])
    {
      NextTaskIsFresh(s, a, k);
    }
  }

  lemma NothingNewIsForwarded(s: State, a: Action)
    requires Shaped(s) && !a.Insert?
    ensures var s' := Step(s, a);
            && s'.forwards == s.forwards && |s.requests| <= |s'.requests|
            && (forall key :: key in s'.routes ==> key in s.routes && s'.routes[key] == s.routes[key])
            && forall serial: nat :: Tried(s', serial) == Tried(s, serial)
  {
    SameForwards(s, a);
    FewerRoutes(s, a);
    StepKeepsShaped(s, a);
    hide Shaped, Step;
  }

  lemma SameForwards(s: State, a: Action)
    requires Shaped(s) && !a.Insert?
    ensures Step(s, a).forwards == s.forwards
  {
    IsShaped(s);
    hide Shaped;
  }

  lemma FewerRoutes(s: State, a: Action)
    requires Shaped(s) && !a.Insert?
    ensures forall key :: key in Step(s, a).routes ==> key in s.routes && Step(s, a).routes[key] == s.routes[key]
  {
    IsShaped(s);
    hide Shaped;
  }

  lemma NeverForwarded(s: State, serial: nat)
    requires forall f :: f in s.forwards ==> f.serial < serial
    ensures Tried(s, serial) == {}
  {
  }

  /** How a task may go on: from choosing to forwarding to checked, with what is excluded kept. */
  predicate GoesOn(t: Task, t': Task) {
    || t' == t || t'.Finished?
    || (t.Choosing? && t'.Choosing? && t'.serial == t.serial && t.excluded <= t'.excluded)
    || (t.Choosing? && t'.Forwarding? && t'.serial == t.serial && t'.excluded == t.excluded &&
         t'.account !in t.excluded)
    || (t.Forwarding? && t' == Checked(t.serial, t.account, t.excluded))
  }

  lemma OldTaskGoesOn(s: State, a: Action, k: nat)
    requires Shaped(s) && !a.Insert? && k < |s.tasks|
    ensures k < |Step(s, a).tasks| && GoesOn(s.tasks[k], Step(s, a).tasks[k])
  {
    hide Shaped;
  }

  lemma NewTaskIs(s: State, a: Action, k: nat)
    requires Shaped(s) && !a.Insert? && |s.tasks| <= k < |Step(s, a).tasks|
    ensures var t := Step(s, a).tasks[k];
            || (!t.Choosing? && !t.Forwarding? && !t.Checked?)
            || t == Choosing(|s.requests|, {})
            || (a.Respond? && a.key in s.routes && s.routes[a.key].account == a.account
                && t == Choosing(s.routes[a.key].serial, s.routes[a.key].excluded + {a.account}))
  {
    hide Shaped;
  }

  lemma NextTaskIsFresh(s: State, a: Action, k: nat)
    requires Shaped(s) && Fresh(s) && !a.Insert? && k < |Step(s, a).tasks|
    ensures TaskIsFresh(Step(s, a), Step(s, a).tasks[k])
  {
    NothingNewIsForwarded(s, a);
    NeverForwarded(s, |s.requests|);
    if k < |s.tasks| {
      OldTaskGoesOn(s, a, k);
      assert TaskIsFresh(s, s.tasks[k]);
    } else {
      NewTaskIs(s, a, k);
      assert a.Respond? && a.key in s.routes ==> RouteIsFresh(s, s.routes[a.key]);
    }
    hide Tried, Shaped, Step, Fresh;
  }

  /** The request's only task is the one inserting, so no other task or route refers to what is being tried. */
  lemma {:induction false} OnlyTask(tasks: seq<Task>, serial: nat, j: nat, k: nat)
    requires j < k < |tasks| && Owes(serial)(tasks[j]) && Owes(serial)(tasks[k])
    ensures Count(tasks, Owes(serial)) >= 2
  {
    if k == |tasks| - 1 {
      CountPositive(tasks[..k], j, Owes(serial));
    } else {
      OnlyTask(tasks[..|tasks| - 1], serial, j, k);
    }
  }

  lemma OthersAreElsewhere(s: State, k: nat, j: nat)
    requires Balanced(s) && k < |s.tasks| && s.tasks[k].Checked? && j < |s.tasks| && j != k
    ensures s.tasks[k].serial < |s.requests|
    ensures Owes(s.tasks[k].serial)(s.tasks[j]) ==> false
    ensures Routes(s, s.tasks[k].serial) == 0
  {
    var serial := s.tasks[k].serial;
    assert Conserved(s, serial);
    CountPositive(s.tasks, k, Owes(serial));
    if Owes(serial)(s.tasks[j]) {
      if j < k { OnlyTask(s.tasks, serial, j, k); } else { OnlyTask(s.tasks, serial, k, j); }
    }
  }

  lemma RouteIsElsewhere(s: State, k: nat, key: string)
    requires Balanced(s) && k < |s.tasks| && s.tasks[k].Checked? && key in s.routes
    ensures s.routes[key].serial != s.tasks[k].serial
  {
    var serial := s.tasks[k].serial;
    assert Conserved(s, serial);
    CountPositive(s.tasks, k, Owes(serial));
  }

  lemma TriedOneMore(s: State, s': State, f: Forward, serial: nat)
    requires s'.forwards == s.forwards + [f]
    ensures Tried(s', serial) == Tried(s, serial) + (if f.serial == serial then {f.account} else {})
  {
    assert forall g :: g in s'.forwards <==> g in s.forwards || g == f;
  }

  lemma AnswerKeepsFresh(s: State, k: nat, code: int)
    requires Fresh(s) && k < |s.tasks| && !s.tasks[k].Finished?
    ensures Fresh(Conclude(s, k, code))
  {
    var s' := Conclude(s, k, code);
    assert forall serial: nat :: Tried(s', serial) == Tried(s, serial);
    hide Tried;
  }

  lemma InsertKeepsFresh(s: State, k: nat, expiresAt: int)
    requires Balanced(s) && Fresh(s) && k < |s.tasks| && s.tasks[k].Checked?
    ensures Fresh(Step(s, Insert(k, expiresAt)))
  {
    BalancedIs(s, 0);
    var t := s.tasks[k];
    var r := s.requests[t.serial];
    var s' := OnInsert(s, k, expiresAt);
    assert TaskIsFresh(s, t);
    if r.key in s.routes {
      AnswerKeepsFresh(s, k, ForwardFailure(r.operation));
    } else {
      var f := Forward(t.serial, t.account);
      forall j | 0 <= j < |s'.tasks|
        ensures TaskIsFresh(s', s'.tasks[j])
      {
        if j != k {
          OthersAreElsewhere(s, k, j);
          hide Balanced;
          assert TaskIsFresh(s, s.tasks[j]);
          assert s'.tasks[j] == s.tasks[j];
          if s.tasks[j].Choosing? || s.tasks[j].Forwarding? || s.tasks[j].Checked? {
            TriedOneMore(s, s', f, s.tasks[j].serial);
          }
        }
      }
      forall key | key in s'.routes
        ensures RouteIsFresh(s', s'.routes[key])
      {
        TriedOneMore(s, s', f, s'.routes[key].serial);
        if key != r.key {
          RouteIsElsewhere(s, k, key);
          assert RouteIsFresh(s, s.routes[key]);
        }
      }
      forall i | 0 <= i < |s.forwards| && s.forwards[i].serial == t.serial
        ensures s.forwards[i].account != t.account
      {
        assert s.forwards[i] in s.forwards;
        assert s.forwards[i].account in Tried(s, t.serial);
      }
    }
  }

  lemma {:induction false} RunsStayFresh(spending: bool, actions: seq<Action>)
    ensures Fresh(Run(spending, actions))
  {
    StartIsBalanced(spending);
    if actions != [] {
      var front, a := actions[..|actions| - 1], actions[|actions| - 1];
      RunsStayFresh(spending, front);
      var s := Run(spending, front);
      StepsOneMore(Start(spending), front, a);
      assert actions == front + [a];
      hide Fresh, Balanced;
      if a.Insert? && a.task < |s.tasks| && s.tasks[a.task].Checked? {
        InsertKeepsFresh(s, a.task, a.expiresAt);
      } else if !a.Insert? {
        OtherStepsKeepFresh(s, a);
      }
    }
  }

  /** A retry chain never comes back to an account. */
  lemma NoAccountIsTriedTwice(spending: bool, actions: seq<Action>, i: nat, j: nat)
    requires i < j < |Run(spending, actions).forwards|
    requires Run(spending, actions).forwards[i].serial == Run(spending, actions).forwards[j].serial
    ensures Run(spending, actions).forwards[i].account != Run(spending, actions).forwards[j].account
  {
    RunsStayFresh(spending, actions);
  }

  function For(serial: nat): Forward -> bool {
    (f: Forward) => f.serial == serial
  }

  /** So over a fixed set of accounts a request is forwarded at most once for each of them. */
  lemma TriesAreBounded(spending: bool, actions: seq<Action>, serial: nat, accounts: set<string>)
    requires Tried(Run(spending, actions), serial) <= accounts
    ensures Count(Run(spending, actions).forwards, For(serial)) <= |accounts|
  {
    RunsStayFresh(spending, actions);
    var s := Run(spending, actions);
    DistinctTries(s.forwards, serial);
    assert Tried(s, serial) == AccountsOf(s.forwards, serial);
    SubsetIsSmaller(Tried(s, serial), accounts);
  }

  function AccountsOf(forwards: seq<Forward>, serial: nat): set<string> {
    set f | f in forwards && f.serial == serial :: f.account
  }

  lemma SubsetIsSmaller(a: set<string>, b: set<string>)
    requires a <= b
    ensures |a| <= |b|
  {
    assert b == a + (b - a);
  }

  lemma {:induction false} DistinctTries(forwards: seq<Forward>, serial: nat)
    requires forall i, j :: 0 <= i < j < |forwards| && forwards[i].serial == forwards[j].serial ==>
               forwards[i].account != forwards[j].account
    ensures Count(forwards, For(serial)) == |AccountsOf(forwards, serial)|
  {
    if forwards != [] {
      var front, last := forwards[..|forwards| - 1], forwards[|forwards| - 1];
      DistinctTries(front, serial);
      assert forwards == front + [last];
      if last.serial == serial {
        assert AccountsOf(forwards, serial) == AccountsOf(front, serial) + {last.account};
        forall f | f in front && f.serial == serial
          ensures f.account != last.account
        {
          var i :| 0 <= i < |front| && front[i] == f;
          assert forwards[i] == f;
        }
      } else {
        assert AccountsOf(forwards, serial) == AccountsOf(front, serial);
      }
    }
  }

  /** A usage limit is retried wherever the chat can go on elsewhere, and every retry shrinks what is left to try. */
  lemma RetriesShrink(spending: bool, actions: seq<Action>, key: string, account: string, accounts: set<string>)
    requires var s := Run(spending, actions); key in s.routes && s.routes[key].account == account && account in accounts
    ensures var s := Run(spending, actions);
            var route := s.routes[key];
            var t := OnRespond(s, account, key, true).tasks[|s.tasks|];
            && (t.Choosing? <==>
                 && !s.spending
                 && (s.requests[route.serial].operation == "thread/start" ||
                      (s.requests[route.serial].operation == "turn/start" && s.requests[route.serial].thread != "")))
            && (t.Choosing? ==> t.serial == route.serial && accounts - t.excluded < accounts - route.excluded)
  {
    RunsStayFresh(spending, actions);
    var s := Run(spending, actions);
    assert RouteIsFresh(s, s.routes[key]);
    assert account in accounts - s.routes[key].excluded;
  }
}
