/** What holds over every run of the multiplexer: conservation of answers, and failover. */
module MultiplexerRuns {
  import opened Multiplexer

  lemma StartIsBalanced(spending: bool)
    ensures Balanced(Start(spending))
  {
  }

  function Steps(s: State, actions: seq<Action>): (s': State)
    requires Balanced(s)
    ensures Balanced(s')
  {
    if actions == [] then s
    else
      var before := Steps(s, actions[..|actions| - 1]);
      StepKeepsBalanced(before, actions[|actions| - 1]);
      Step(before, actions[|actions| - 1])
  }

  function Run(spending: bool, actions: seq<Action>): (s: State)
    ensures Balanced(s)
  {
    StartIsBalanced(spending);
    Steps(Start(spending), actions)
  }

  lemma StepsOneMore(s: State, actions: seq<Action>, a: Action)
    requires Balanced(s)
    ensures Steps(s, actions + [a]) == Step(Steps(s, actions), a)
  {
    assert (actions + [a])[..|actions|] == actions;
  }

  lemma {:induction false} StepsOfConcat(s: State, a: seq<Action>, b: seq<Action>)
    requires Balanced(s)
    ensures Steps(s, a + b) == Steps(Steps(s, a), b)
  {
    if b == [] {
      assert a + b == a;
    } else {
      assert (a + b)[..|a + b| - 1] == a + b[..|b| - 1];
      StepsOfConcat(s, a, b[..|b| - 1]);
    }
  }

  // ---- conservation of answers ----

  /**
    Whatever is interleaved, a request's answers, its place in the table and the goroutines that owe it an answer add
    up to one, but for what a failing send does after its route is gone: one answer too many, or a neighbour's route
    lost.
  */
  lemma AnswersAreConserved(spending: bool, actions: seq<Action>, serial: nat)
    requires serial < |Run(spending, actions).requests|
    ensures var s := Run(spending, actions);
            && Replies(s, serial) + Routes(s, serial) + Tasks(s, serial) + Stolen(s, serial) == 1 + Late(s, serial)
            && Routes(s, serial) + Tasks(s, serial) <= 1
  {
    var s := Run(spending, actions);
    assert Conserved(s, serial);
  }

  /** A settled request was answered exactly once if and only if it was overtaken as often as it was robbed. */
  lemma SettledAnswers(spending: bool, actions: seq<Action>, serial: nat)
    requires serial < |Run(spending, actions).requests|
    requires Routes(Run(spending, actions), serial) == 0 && Tasks(Run(spending, actions), serial) == 0
    ensures var s := Run(spending, actions);
            Replies(s, serial) == 1 <==> Late(s, serial) == Stolen(s, serial)
  {
    AnswersAreConserved(spending, actions, serial);
  }

  /** forwardRoute without interruption between its insertion and the end of its send. */
  datatype Move = One(action: Action) | ForwardRoute(task: nat, expiresAt: int, ok: bool)

  function Pieces(moves: seq<Move>): seq<Action> {
    if moves == [] then []
    else
      Pieces(moves[..|moves| - 1]) +
      (match moves[|moves| - 1]
       case One(a) => if a.Insert? || a.Sent? then [] else [a]
       case ForwardRoute(k, expiresAt, ok) => [Insert(k, expiresAt), Sent(k, ok)])
  }

  predicate Calm(s: State) {
    s.late == [] && s.stolen == [] && forall k :: 0 <= k < |s.tasks| ==> !s.tasks[k].Sending?
  }

  lemma OtherStepsStayCalm(s: State, a: Action)
    requires Balanced(s) && Calm(s) && !a.Insert? && !a.Sent?
    ensures Calm(Step(s, a))
  {
    hide Balanced;
  }

  lemma ForwardStaysCalm(s: State, k: nat, expiresAt: int, ok: bool)
    requires Balanced(s) && Calm(s)
    ensures Balanced(Step(s, Insert(k, expiresAt)))
    ensures Calm(Step(Step(s, Insert(k, expiresAt)), Sent(k, ok)))
  {
    StepKeepsBalanced(s, Insert(k, expiresAt));
    var s' := Step(s, Insert(k, expiresAt));
    BalancedIs(s, 0);
    BalancedIs(s', 0);
    hide Balanced;
    if k < |s.tasks| && s.tasks[k].Checked? {
      InsertedRouteStands(s, k, expiresAt);
      hide OnInsert, Shaped;
      if s'.tasks[k].Sending? {
        SentIsCalm(s', k, ok);
      }
    }
  }

  lemma SentIsCalm(s: State, k: nat, ok: bool)
    requires Shaped(s) && k < |s.tasks| && s.tasks[k].Sending? && s.late == [] && s.stolen == []
    requires forall j :: 0 <= j < |s.tasks| && j != k ==> !s.tasks[j].Sending?
    requires var key := s.requests[s.tasks[k].serial].key; key in s.routes && s.routes[key].serial == s.tasks[k].serial
    ensures Calm(Step(s, Sent(k, ok)))
  {
  }

  lemma InsertedRouteStands(s: State, k: nat, expiresAt: int)
    requires Shaped(s) && Calm(s) && k < |s.tasks| && s.tasks[k].Checked?
    ensures var s', r := OnInsert(s, k, expiresAt), s.requests[s.tasks[k].serial];
            && s'.requests == s.requests && s'.late == [] && s'.stolen == []
            && (forall j :: 0 <= j < |s'.tasks| && j != k ==> !s'.tasks[j].Sending?)
            && (s'.tasks[k].Sending? ==>
                  s'.tasks[k].serial == s.tasks[k].serial && r.key in s'.routes &&
                    s'.routes[r.key].serial == s.tasks[k].serial)
            && |s'.tasks| == |s.tasks|
  {
  }

  lemma ForwardIsTwoSteps(spending: bool, actions: seq<Action>, k: nat, expiresAt: int, ok: bool)
    requires Calm(Run(spending, actions))
    ensures Calm(Run(spending, actions + [Insert(k, expiresAt), Sent(k, ok)]))
  {
    var s, insert, sent := Run(spending, actions), Insert(k, expiresAt), Sent(k, ok);
    StartIsBalanced(spending);
    assert actions + [insert, sent] == actions + [insert] + [sent];
    hide Calm, Balanced, Step;
    StepsOneMore(Start(spending), actions, insert);
    StepsOneMore(Start(spending), actions + [insert], sent);
    ForwardStaysCalm(s, k, expiresAt, ok);
  }

  lemma {:induction false} UninterruptedStaysCalm(spending: bool, moves: seq<Move>)
    ensures Calm(Run(spending, Pieces(moves)))
  {
    StartIsBalanced(spending);
    if moves != [] {
      var front, last := moves[..|moves| - 1], moves[|moves| - 1];
      UninterruptedStaysCalm(spending, front);
      hide Calm, Balanced, Step;
      match last
      case One(a) =>
        if a.Insert? || a.Sent? {
          assert Pieces(moves) == Pieces(front);
        } else {
          StepsOneMore(Start(spending), Pieces(front), a);
          OtherStepsStayCalm(Run(spending, Pieces(front)), a);
        }
      case ForwardRoute(k, expiresAt, ok) =>
        ForwardIsTwoSteps(spending, Pieces(front), k, expiresAt, ok);
    }
  }

  /** If no send is overtaken, a request is pending, owed an answer by one goroutine, or answered once: never two. */
  lemma AnsweredExactlyOnce(spending: bool, moves: seq<Move>, serial: nat)
    requires serial < |Run(spending, Pieces(moves)).requests|
    ensures var s := Run(spending, Pieces(moves));
            Replies(s, serial) + Routes(s, serial) + Tasks(s, serial) == 1
  {
    UninterruptedStaysCalm(spending, moves);
    AnswersAreConserved(spending, Pieces(moves), serial);
  }

  // ---- and how an overtaken send breaks it ----

  /**
    A sweep between the insertion of a route and its failing send: the request gets two answers, whatever else happened.
  */
  lemma OvertakenSendAnswersTwice(s: State, k: nat, now: int)
    requires Balanced(s) && k < |s.tasks| && s.tasks[k].Sending? && Routes(s, s.tasks[k].serial) == 1
    requires s.routes[s.requests[s.tasks[k].serial].key].expiresAt <= now
    ensures var serial := s.tasks[k].serial;
            var s' := Steps(s, [Expire(s.requests[serial].key, now), Answer(|s.tasks|), Sent(k, false)]);
            serial < |s'.requests| && Replies(s', serial) == Replies(s, serial) + 2 &&
              Late(s', serial) == Late(s, serial) + 1
  {
    var serial := s.tasks[k].serial;
    var key, n := s.requests[serial].key, |s.tasks|;
    ThreeSteps(s, Expire(key, now), Answer(n), Sent(k, false));
    BalancedIs(s, serial);
    BalancedIs(Step(s, Expire(key, now)), serial);
    BalancedIs(Step(Step(s, Expire(key, now)), Answer(n)), serial);
    hide Balanced, Steps, Shaped, Conserved;
    SweptMeanwhile(s, k, now);
    var s2 := Step(Step(s, Expire(key, now)), Answer(n));
    FailedSendIs(s2, k);
    hide Step, OnSendFailed, Replies, Late, Routes;
    SendFailedCounts(s2, k, serial);
  }

  lemma FailedSendIs(s: State, k: nat)
    requires Shaped(s) && k < |s.tasks| && s.tasks[k].Sending?
    ensures s.tasks[k].serial < |s.requests| && Step(s, Sent(k, false)) == OnSendFailed(s, k)
    ensures OnSendFailed(s, k).requests == s.requests
  {
  }

  lemma SweptMeanwhile(s: State, k: nat, now: int)
    requires Shaped(s) && k < |s.tasks| && s.tasks[k].Sending? && s.tasks[k].serial < |s.requests| &&
               Routes(s, s.tasks[k].serial) == 1
    requires s.routes[s.requests[s.tasks[k].serial].key].expiresAt <= now
    requires Shaped(Step(s, Expire(s.requests[s.tasks[k].serial].key, now)))
    ensures var serial := s.tasks[k].serial;
            var s' := Step(Step(s, Expire(s.requests[serial].key, now)), Answer(|s.tasks|));
            && s'.requests == s.requests && k < |s'.tasks| && s'.tasks[k] == s.tasks[k] &&
                 s.requests[serial].key !in s'.routes
            && Replies(s', serial) == Replies(s, serial) + 1 && Late(s', serial) == Late(s, serial)
  {
    var serial := s.tasks[k].serial;
    var s1 := Step(s, Expire(s.requests[serial].key, now));
    assert s1.tasks[|s.tasks|] == Answering(serial, EXPIRED);
    ConcludeCounts(s1, |s.tasks|, EXPIRED, serial);
  }

  lemma ThreeSteps(s: State, a: Action, b: Action, c: Action)
    requires Balanced(s)
    ensures Balanced(Step(s, a)) && Balanced(Step(Step(s, a), b))
    ensures Steps(s, [a, b, c]) == Step(Step(Step(s, a), b), c)
  {
    StepKeepsBalanced(s, a);
    StepKeepsBalanced(Step(s, a), b);
    assert [a] == [] + [a] && [a, b] == [a] + [b] && [a, b, c] == [a, b] + [c];
    StepsOneMore(s, [], a);
    StepsOneMore(s, [a], b);
    StepsOneMore(s, [a, b], c);
  }

  /** Such a state is reachable: a send under way whose route has run out of time. */
  lemma OvertakingHappens(now: int)
    ensures exists actions, k: nat ::
              var s := Run(false, actions);
              k < |s.tasks| && s.tasks[k].Sending? && s.tasks[k].serial < |s.requests| &&
                Routes(s, s.tasks[k].serial) == 1
              && s.routes[s.requests[s.tasks[k].serial].key].expiresAt <= now
  {
    var r := Request("1", "thread/read", "");
    var s0 := Start(false);
    StartIsBalanced(false);
    var actions := [Arrive(r), Choose(0, "a"), Check(0, true)];
    ThreeSteps(s0, Arrive(r), Choose(0, "a"), Check(0, true));
    StepsOneMore(s0, actions, Insert(0, now));
    assert Run(false, actions + [Insert(0, now)]) == Steps(s0, actions + [Insert(0, now)]);
    FirstSend(r, now);
    hide *;
    var s := Run(false, actions + [Insert(0, now)]);
    assert s.tasks == [Sending(0)] && s.routes == map["1" := Route(0, "a", {}, now)] && s.requests == [r];
    AloneInTheTable(s, r);
    assert s.tasks[0].Sending?;
  }

  lemma AloneInTheTable(s: State, r: Request)
    requires |s.requests| == 1 && s.requests[0] == r && r.key in s.routes && s.routes[r.key].serial == 0
    ensures Routes(s, 0) == 1
  {
  }

  lemma FirstSend(r: Request, now: int)
    requires r == Request("1", "thread/read", "")
    ensures var s0 := Start(false).(requests := [r]);
            var s3 := s0.(tasks := [Checked(0, "a", {})]);
            && Step(Start(false), Arrive(r)) == s0.(tasks := [Choosing(0, {})])
            && Step(s0.(tasks := [Choosing(0, {})]), Choose(0, "a")) == s0.(tasks := [Forwarding(0, "a", {})])
            && Step(s0.(tasks := [Forwarding(0, "a", {})]), Check(0, true)) == s3
            && var s4 := Step(s3, Insert(0, now));
               s4.tasks == [Sending(0)] && s4.routes == map["1" := Route(0, "a", {}, now)] && s4.requests == [r]
  {
  }
}
