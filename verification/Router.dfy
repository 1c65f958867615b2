/** The multiplexer object's table of pending client requests, and the methods of internal/mux/mux.go that change it. */
module Router {
  import opened Common
  import opened Multiplexer
  import opened MultiplexerRuns
  import RoutingRules

  class Router {
    const spending: bool
    var closing: bool
    var requests: seq<Request>
    var externalRoutes: map<string, Route>
    var output: seq<Reply>
    ghost var state: State

    ghost predicate Valid()
      reads this
    {
      && Balanced(state) && state.spending == spending && state.closing == closing && state.requests == requests
      && state.routes == externalRoutes && state.replies == output
    }

    constructor (spending: bool)
      ensures Valid() && state == Start(spending) && this.spending == spending
    {
      this.spending := spending;
      closing, requests, externalRoutes, output := false, [], map[], [];
      state := Start(spending);
      new;
      StartIsBalanced(spending);
    }

    method HandleClient(request: Request)
      requires Valid()
      modifies this
      ensures Valid() && state == Step(old(state), Arrive(request))
    {
      StepKeepsBalanced(state, Arrive(request));
      state := Step(state, Arrive(request));
      hide Balanced;
      if closing {
        output := output + [Reply(|requests|, SHUTTING_DOWN)];
      }
      requests := requests + [request];
    }

    /** The first check of forwardRoute, made by goroutine k for its request. */
    method CheckForward(ghost k: nat, serial: nat, available: bool) returns (ok: bool)
      requires Valid() && k < |state.tasks| && state.tasks[k].Forwarding? &&
                 state.tasks[k].serial == serial < |requests|
      modifies this
      ensures Valid() && state == Step(old(state), Check(k, available)) && ok == (!old(closing) && available)
    {
      StepKeepsBalanced(state, Check(k, available));
      state := Step(state, Check(k, available));
      hide Balanced;
      ok := !closing && available;
      if !ok {
        output := output + [Reply(serial, ForwardFailure(requests[serial].operation))];
      }
    }

    /** The insertion of forwardRoute; a request under an id already pending is answered with a failure. */
    method Register(ghost k: nat, serial: nat, account: string, excluded: set<string>, expiresAt: int)
      returns (ok: bool)
      requires Valid() && k < |state.tasks| && state.tasks[k] == Checked(serial, account, excluded) &&
                 serial < |requests|
      modifies this
      ensures Valid() && state == Step(old(state), Insert(k, expiresAt)) &&
                ok == (requests[serial].key !in old(externalRoutes))
    {
      StepKeepsBalanced(state, Insert(k, expiresAt));
      state := Step(state, Insert(k, expiresAt));
      hide Balanced;
      var key := requests[serial].key;
      if key in externalRoutes {
        output := output + [Reply(serial, ForwardFailure(requests[serial].operation))];
        return false;
      }
      externalRoutes := externalRoutes[key := Route(serial, account, excluded, expiresAt)];
      return true;
    }

    /** The end of forwardRoute's send. */
    method SendReturned(ghost k: nat, serial: nat, ok: bool)
      requires Valid() && k < |state.tasks| && state.tasks[k] == Sending(serial) && serial < |requests|
      modifies this
      ensures Valid() && state == Step(old(state), Sent(k, ok))
    {
      StepKeepsBalanced(state, Sent(k, ok));
      SentIs(state, k, ok);
      state := Step(state, Sent(k, ok));
      hide Balanced, Step;
      if !ok {
        externalRoutes := externalRoutes - {requests[serial].key};
        output := output + [Reply(serial, ForwardFailure(requests[serial].operation))];
      }
    }

    /** A response from an app-server: only the account the request was forwarded to may take its route. */
    method HandleResponse(account: string, key: string, usageLimit: bool) returns (taken: Option<Route>)
      requires Valid()
      modifies this
      ensures Valid() && state == Step(old(state), Respond(account, key, usageLimit))
      ensures taken == if key in old(externalRoutes) && old(externalRoutes)[key].account == account
                       then Some(old(externalRoutes)[key]) else None
      ensures taken.Some? ==>
                taken.value.serial < |requests| && |state.tasks| == |old(state).tasks| + 1 &&
                (state.tasks[|old(state).tasks|] == Choosing(taken.value.serial, taken.value.excluded + {account}) <==>
                   usageLimit && !spending && RoutingRules.Movable(requests[taken.value.serial]))
    {
      BalancedIs(state, 0);
      RoutingRules.RetriedExactly(state, account, key, usageLimit);
      StepKeepsBalanced(state, Respond(account, key, usageLimit));
      state := Step(state, Respond(account, key, usageLimit));
      hide Balanced, Step, RoutingRules.Movable;
      taken := None;
      if key in externalRoutes && externalRoutes[key].account == account {
        taken := Some(externalRoutes[key]);
        externalRoutes := externalRoutes - {key};
      }
    }

    /** The sweep of the route table; actions tells which pieces it was made of. */
    method ExpireRoutes(now: int) returns (ghost actions: seq<Action>)
      requires Valid()
      modifies this
      ensures Valid() && state == Steps(old(state), actions) && Sweeping(actions, false, now)
      ensures externalRoutes ==
                map key | key in old(externalRoutes) && old(externalRoutes)[key].expiresAt > now ::
                  old(externalRoutes)[key]
      ensures Swept(old(state).tasks, state.tasks)
    {
      ghost var before := state;
      var expired;
      expired, actions := TakeRoutes(false, now);
      AllVisited(externalRoutes, before.routes, false, now);
      hide Balanced, Step, Steps;
      actions := WriteFailures(before, actions, expired, false, now);
    }

    /** Shutting down: from now on requests are refused, and every pending one is answered with a failure. */
    method Close() returns (ghost actions: seq<Action>)
      requires Valid()
      modifies this
      ensures Valid() && closing && externalRoutes == map[] && Swept(old(state).tasks, state.tasks)
      ensures Balanced(Step(old(state), Action.Close)) && state == Steps(Step(old(state), Action.Close), actions)
      ensures Sweeping(actions, true, 0)
    {
      StepKeepsBalanced(state, Action.Close);
      ghost var before := Step(state, Action.Close);
      closing := true;
      state := before;
      var expired;
      expired, actions := TakeRoutes(true, 0);
      AllVisited(externalRoutes, before.routes, true, 0);
      hide Balanced, Step, Steps;
      actions := WriteFailures(before, actions, expired, true, 0);
    }

    method Evict(key: string, all: bool, now: int)
      requires Valid() && key in externalRoutes && !Stays(externalRoutes[key], all, now) && (all ==> closing)
      modifies this
      ensures Valid() && state == Step(old(state), Eviction(key, all, now)) && closing == old(closing)
      ensures externalRoutes == old(externalRoutes) - {key}
      ensures state.tasks == old(state).tasks + [Answering(old(externalRoutes)[key].serial, EXPIRED)]
    {
      BalancedIs(state, 0);
      StepKeepsBalanced(state, Eviction(key, all, now));
      EvictIs(state, key, all, now);
      hide Balanced, Step;
      state := Step(state, Eviction(key, all, now));
      externalRoutes := externalRoutes - {key};
    }

    /** A sweep that has yet to look at the unvisited keys. */
    ghost predicate Underway(before: State, unvisited: set<string>, expired: seq<nat>, actions: seq<Action>, all: bool,
                             now: int)
      reads this
    {
      && Valid() && Balanced(before) && state == Steps(before, actions) && Sweeping(actions, all, now)
      && (all ==> closing)
      && Visited(externalRoutes, before.routes, unvisited, all, now)
      && state.tasks == before.tasks + Owing(expired)
    }

    method TakeOne(ghost before: State, ghost unvisited: set<string>, expired: seq<nat>, ghost actions: seq<Action>,
                   all: bool, now: int, key: string)
      returns (expired': seq<nat>, ghost actions': seq<Action>)
      requires Underway(before, unvisited, expired, actions, all, now) && key in unvisited
      modifies this
      ensures Underway(before, unvisited - {key}, expired', actions', all, now) && closing == old(closing)
    {
      VisitOne(externalRoutes, before.routes, unvisited, all, now, key);
      hide Balanced, Step, Steps, Shaped, Owing, Visited, Sweeping, Stays, Eviction;
      expired', actions' := expired, actions;
      if !Stays(externalRoutes[key], all, now) {
        StepsOneMore(before, actions, Eviction(key, all, now));
        OwingOneMore(expired, externalRoutes[key].serial);
        SweepOneMore(actions, key, all, now);
        actions' := actions + [Eviction(key, all, now)];
        expired' := expired + [externalRoutes[key].serial];
        Evict(key, all, now);
      }
    }

    /** The part of a sweep under the lock: which routes must go, in the order the map is visited. */
    method TakeRoutes(all: bool, now: int) returns (expired: seq<nat>, ghost actions: seq<Action>)
      requires Valid() && (all ==> closing)
      modifies this
      ensures Underway(old(state), {}, expired, actions, all, now) && closing == old(closing)
    {
      ghost var before := state;
      var unvisited := externalRoutes.Keys;
      expired, actions := [], [];
      NoSteps(before);
      NoneVisited(externalRoutes, all, now);
      assert Underway(before, unvisited, expired, actions, all, now);
      hide Underway;
      while unvisited != {}
        invariant Underway(before, unvisited, expired, actions, all, now) && closing == old(closing)
        decreases |unvisited|
      {
        var key :| key in unvisited;
        expired, actions := TakeOne(before, unvisited, expired, actions, all, now, key);
        unvisited := unvisited - {key};
      }
    }

    /** The failures a sweep writes once it has let go of the table. */
    method WriteFailures(ghost before: State, ghost taken: seq<Action>, expired: seq<nat>, ghost all: bool,
                         ghost now: int)
      returns (ghost actions: seq<Action>)
      requires Valid() && Balanced(before) && state == Steps(before, taken) && Sweeping(taken, all, now)
      requires state.tasks == before.tasks + Owing(expired)
      modifies this
      ensures Valid() && state == Steps(before, actions) && Sweeping(actions, all, now)
      ensures externalRoutes == old(externalRoutes) && closing == old(closing)
      ensures Swept(before.tasks, state.tasks)
    {
      hide Balanced, Step, Steps, Sweeping;
      actions := taken;
      assert Owing(expired) == Written(expired, 0);
      for i := 0 to |expired|
        invariant Valid() && state == Steps(before, actions) && Sweeping(actions, all, now)
        invariant externalRoutes == old(externalRoutes) && closing == old(closing)
        invariant state.tasks == before.tasks + Written(expired, i)
      {
        actions := WriteOne(before, actions, expired, all, now, i);
      }
    }

    method WriteOne(ghost before: State, ghost taken: seq<Action>, expired: seq<nat>, ghost all: bool, ghost now: int,
                    i: nat)
      returns (ghost actions: seq<Action>)
      requires Valid() && Balanced(before) && state == Steps(before, taken) && Sweeping(taken, all, now)
      requires i < |expired| && state.tasks == before.tasks + Written(expired, i)
      modifies this
      ensures Valid() && state == Steps(before, actions) && Sweeping(actions, all, now)
      ensures externalRoutes == old(externalRoutes) && closing == old(closing)
      ensures state.tasks == before.tasks + Written(expired, i + 1)
    {
      hide Balanced, Step, Steps;
      ghost var k := |before.tasks| + i;
      BalancedIs(state, 0);
      StepKeepsBalanced(state, Answer(k));
      StepsOneMore(before, taken, Answer(k));
      WrittenOneMore(before.tasks, expired, i);
      AnswerIs(state, k);
      state, actions := Step(state, Answer(k)), taken + [Answer(k)];
      output := output + [Reply(expired[i], EXPIRED)];
    }
  }

  /** A sweep spares the routes whose time has not come; the last one spares none. */
  predicate Stays(r: Route, all: bool, now: int) {
    !all && r.expiresAt > now
  }

  function Eviction(key: string, all: bool, now: int): Action {
    if all then Drop(key) else Expire(key, now)
  }

  predicate Sweeping(actions: seq<Action>, all: bool, now: int) {
    forall a :: a in actions ==> a.Answer? || ((a.Drop? || a.Expire?) && a == Eviction(a.key, all, now))
  }

  function Owing(expired: seq<nat>): (tasks: seq<Task>)
    ensures |tasks| == |expired|
    ensures forall i :: 0 <= i < |expired| ==> tasks[i] == Answering(expired[i], EXPIRED)
  {
    seq(|expired|, i requires 0 <= i < |expired| => Answering(expired[i], EXPIRED))
  }

  /** The same tasks once the first i failures are written. */
  function Written(expired: seq<nat>, i: nat): (tasks: seq<Task>)
    ensures |tasks| == |expired|
    ensures forall j :: 0 <= j < |expired| ==> tasks[j] == if j < i then Finished else Answering(expired[j], EXPIRED)
  {
    seq(|expired|, j requires 0 <= j < |expired| => if j < i then Finished else Answering(expired[j], EXPIRED))
  }

  /** Where the visit of the map stands: of the visited routes only those that stay are still there. */
  ghost predicate Visited(left: map<string, Route>, before: map<string, Route>, unvisited: set<string>, all: bool,
                          now: int) {
    && unvisited <= left.Keys
    && (forall key :: key in left <==> key in before && (key in unvisited || Stays(before[key], all, now)))
    && (forall key :: key in left ==> left[key] == before[key])
  }

  lemma NoneVisited(before: map<string, Route>, all: bool, now: int)
    ensures Visited(before, before, before.Keys, all, now)
  {
  }

  lemma VisitOne(left: map<string, Route>, before: map<string, Route>, unvisited: set<string>, all: bool, now: int,
                 key: string)
    requires Visited(left, before, unvisited, all, now) && key in unvisited
    ensures key in left
    ensures Visited(if Stays(left[key], all, now) then left else left - {key}, before, unvisited - {key}, all, now)
  {
  }

  lemma AllVisited(left: map<string, Route>, before: map<string, Route>, all: bool, now: int)
    requires Visited(left, before, {}, all, now)
    ensures left == map key | key in before && Stays(before[key], all, now) :: before[key]
  {
  }

  lemma SweepOneMore(actions: seq<Action>, key: string, all: bool, now: int)
    requires Sweeping(actions, all, now)
    ensures Sweeping(actions + [Eviction(key, all, now)], all, now)
  {
  }

  lemma NoSteps(s: State)
    requires Balanced(s)
    ensures Steps(s, []) == s && s.tasks + Owing([]) == s.tasks
    ensures forall all, now :: Sweeping([], all, now)
  {
  }

  lemma WrittenOneMore(before: seq<Task>, expired: seq<nat>, i: nat)
    requires i < |expired|
    ensures var tasks := before + Written(expired, i);
            tasks[|before| + i] == Answering(expired[i], EXPIRED) &&
              tasks[|before| + i := Finished] == before + Written(expired, i + 1)
  {
    assert Written(expired, i)[i := Finished] == Written(expired, i + 1);
  }

  lemma OwingOneMore(expired: seq<nat>, serial: nat)
    ensures Owing(expired + [serial]) == Owing(expired) + [Answering(serial, EXPIRED)]
  {
  }

  /** A sweep leaves every other task alone and has finished its own. */
  predicate Swept(before: seq<Task>, after: seq<Task>) {
    |before| <= |after| && after[..|before|] == before && forall k :: |before| <= k < |after| ==> after[k].Finished?
  }

  lemma SentIs(s: State, k: nat, ok: bool)
    requires Balanced(s) && k < |s.tasks| && s.tasks[k].Sending?
    ensures var s', serial := Step(s, Sent(k, ok)), s.tasks[k].serial;
            && serial < |s.requests| && s'.spending == s.spending && s'.closing == s.closing &&
                 s'.requests == s.requests
            && s'.routes == (if ok then s.routes else s.routes - {s.requests[serial].key})
            && s'.replies == (if ok then s.replies
                 else s.replies + [Reply(serial, ForwardFailure(s.requests[serial].operation))])
  {
    BalancedIs(s, 0);
    hide Balanced;
  }

  lemma EvictIs(s: State, key: string, all: bool, now: int)
    requires Shaped(s) && key in s.routes && !Stays(s.routes[key], all, now) && (all ==> s.closing)
    ensures Step(s, Eviction(key, all, now)) ==
            s.(routes := s.routes - {key}, tasks := s.tasks + [Answering(s.routes[key].serial, EXPIRED)])
  {
  }

  lemma AnswerIs(s: State, k: nat)
    requires Shaped(s) && k < |s.tasks| && s.tasks[k].Answering?
    ensures Step(s, Answer(k)) ==
            s.(tasks := s.tasks[k := Finished], replies := s.replies + [Reply(s.tasks[k].serial, s.tasks[k].code)])
  {
  }
}
