/**
  Routed client requests: HandleClient, forwardRoute, handleInbound, the failover functions and the two sweeps of
  internal/mux/mux.go.

  Goroutines are tasks, cut where another goroutine may run: between the closing check, the insertion of a route, the
  send to the app-server and the clean-up after a failed send, and between taking a route out of the table and writing
  its answer. `Step` is one such piece; runs are any sequences of them.
*/
module Multiplexer {
  import opened Common

  /** A client request; serial numbers tell apart requests that reuse an id. */
  datatype Request = Request(key: string, operation: string, thread: string)

  datatype Route = Route(serial: nat, account: string, excluded: set<string>, expiresAt: int)

  datatype Task =
    | Serving(serial: nat)                                                  // the router answers this request itself
    | Answering(serial: nat, code: int)                                     // an answer on its way to the output
    | Choosing(serial: nat, excluded: set<string>)
    | Forwarding(serial: nat, account: string, excluded: set<string>)       // forwardRoute was called
    | Checked(serial: nat, account: string, excluded: set<string>)          // and did not find the router closing
    | Sending(serial: nat)                                                  // and has inserted its route
    | Finished

  /** Code 0 stands for an answer that is not a failure of the router's own. */
  datatype Reply = Reply(serial: nat, code: int)

  datatype Forward = Forward(serial: nat, account: string)

  /**
    late lists the requests answered again by a failing send that no longer found its route; stolen lists those whose
    route another request's failing send deleted.
  */
  datatype State = State(
    spending: bool, closing: bool, requests: seq<Request>, routes: map<string, Route>, tasks: seq<Task>,
    replies: seq<Reply>, forwards: seq<Forward>, late: seq<nat>, stolen: seq<nat>)

  datatype Action =
    | Arrive(request: Request)
    | Close
    | Serve(task: nat, code: int)
    | Answer(task: nat)
    | Choose(task: nat, account: string)
    | Refuse(task: nat, code: int)
    | SkipOwner(task: nat, owner: string)
    | Check(task: nat, available: bool)
    | Insert(task: nat, expiresAt: int)
    | Sent(task: nat, ok: bool)
    | Respond(account: string, key: string, usageLimit: bool)
    | Expire(key: string, now: int)
    | Drop(key: string)

  const SHUTTING_DOWN := -32034
  const NOT_FORWARDED := -32023
  const NEW_THREAD_NOT_FORWARDED := -32021
  const EXPIRED := -32030
  const DEPLETED := -32026

  function Start(spending: bool): State {
    State(spending, false, [], map[], [], [], [], [], [])
  }

  function ForwardFailure(operation: string): int {
    if operation == "thread/start" then NEW_THREAD_NOT_FORWARDED else NOT_FORWARDED
  }

  predicate SelfServed(operation: string) {
    operation == "initialize" || operation == "thread/list" || operation == "account/rateLimits/read"
  }

  // ---- one step ----

  function Put(s: State, k: nat, t: Task): State
    requires k < |s.tasks|
  {
    s.(tasks := s.tasks[k := t])
  }

  /** Task k writes its request's answer and is done. */
  function Conclude(s: State, k: nat, code: int): State
    requires k < |s.tasks| && !s.tasks[k].Finished?
  {
    Put(s, k, Finished).(replies := s.replies + [Reply(s.tasks[k].serial, code)])
  }

  function OnArrive(s: State, request: Request): State {
    var serial := |s.requests|;
    var s' := s.(requests := s.requests + [request]);
    if s.closing then s'.(replies := s.replies + [Reply(serial, SHUTTING_DOWN)])
    else s'.(tasks := s.tasks + [if SelfServed(request.operation) then Serving(serial) else Choosing(serial, {})])
  }

  function OnInsert(s: State, k: nat, expiresAt: int): State
    requires k < |s.tasks| && s.tasks[k].Checked? && s.tasks[k].serial < |s.requests|
  {
    var t := s.tasks[k];
    var r := s.requests[t.serial];
    if r.key in s.routes then Conclude(s, k, ForwardFailure(r.operation))
    else
      Put(s, k, Sending(t.serial)).(
        routes := s.routes[r.key := Route(t.serial, t.account, t.excluded, expiresAt)],
        forwards := s.forwards + [Forward(t.serial, t.account)])
  }

  /** A failed send deletes whatever route stands under its key, and the caller answers with a failure. */
  function OnSendFailed(s: State, k: nat): State
    requires k < |s.tasks| && s.tasks[k].Sending? && s.tasks[k].serial < |s.requests|
  {
    var serial := s.tasks[k].serial;
    var r := s.requests[serial];
    var s' := Conclude(s, k, ForwardFailure(r.operation)).(routes := s.routes - {r.key});
    if r.key !in s.routes then s'.(late := s.late + [serial])
    else if s.routes[r.key].serial != serial then
      s'.(late := s.late + [serial], stolen := s.stolen + [s.routes[r.key].serial])
    else s'
  }

  function OnRespond(s: State, account: string, key: string, usageLimit: bool): State
    requires key in s.routes ==> s.routes[key].serial < |s.requests|
  {
    if key !in s.routes || s.routes[key].account != account then s
    else
      var route := s.routes[key];
      var r := s.requests[route.serial];
      var retries := !s.spending && usageLimit && (r.operation == "thread/start" || r.operation == "turn/start");
      s.(routes := s.routes - {key},
         tasks := s.tasks + [
           if !retries then Answering(route.serial, 0)
           else if r.operation == "turn/start" && r.thread == "" then Answering(route.serial, DEPLETED)
           else Choosing(route.serial, route.excluded + {account})])
  }

  /** Taking one route out of the table to answer it with a failure. */
  function Evict(s: State, key: string): State
    requires key in s.routes
  {
    s.(routes := s.routes - {key}, tasks := s.tasks + [Answering(s.routes[key].serial, EXPIRED)])
  }

  /** An action that its task is not ready for changes nothing. */
  function Step(s: State, a: Action): State
    requires Shaped(s)
  {
    match a
    case Arrive(request) => OnArrive(s, request)
    case Close => s.(closing := true)
    case Serve(k, code) => if k < |s.tasks| && s.tasks[k].Serving? then Conclude(s, k, code) else s
    case Answer(k) => if k < |s.tasks| && s.tasks[k].Answering? then Conclude(s, k, s.tasks[k].code) else s
    case Choose(k, account) =>
      if k < |s.tasks| && s.tasks[k].Choosing? && account !in s.tasks[k].excluded
      then Put(s, k, Forwarding(s.tasks[k].serial, account, s.tasks[k].excluded)) else s
    case Refuse(k, code) => if k < |s.tasks| && s.tasks[k].Choosing? then Conclude(s, k, code) else s
    case SkipOwner(k, owner) =>
      // a turn whose owner has no capacity left goes straight to failover
      if k < |s.tasks| && s.tasks[k].Choosing? && s.requests[s.tasks[k].serial].operation == "turn/start" &&
         s.requests[s.tasks[k].serial].thread != "" && s.tasks[k].excluded == {} && !s.spending
      then Put(s, k, Choosing(s.tasks[k].serial, {owner})) else s
    case Check(k, available) =>
      if k < |s.tasks| && s.tasks[k].Forwarding? then
        var t := s.tasks[k];
        if s.closing || !available then Conclude(s, k, ForwardFailure(s.requests[t.serial].operation))
        else Put(s, k, Checked(t.serial, t.account, t.excluded))
      else s
    case Insert(k, expiresAt) => if k < |s.tasks| && s.tasks[k].Checked? then OnInsert(s, k, expiresAt) else s
    case Sent(k, ok) =>
      if k < |s.tasks| && s.tasks[k].Sending? then (if ok then Put(s, k, Finished) else OnSendFailed(s, k)) else s
    case Respond(account, key, usageLimit) => OnRespond(s, account, key, usageLimit)
    case Expire(key, now) => if key in s.routes && s.routes[key].expiresAt <= now then Evict(s, key) else s
    case Drop(key) => if key in s.routes && s.closing then Evict(s, key) else s
  }

  // ---- conservation ----

  predicate Shaped(s: State) {
    && (forall k :: 0 <= k < |s.tasks| && !s.tasks[k].Finished? ==> s.tasks[k].serial < |s.requests|)
    && (forall key :: key in s.routes ==>
         s.routes[key].serial < |s.requests| && s.requests[s.routes[key].serial].key == key)
  }

  /** A task that must still see to the answer of request serial; once its route stands, the route does. */
  function Owes(serial: nat): Task -> bool {
    (t: Task) => !t.Finished? && !t.Sending? && t.serial == serial
  }

  function Is(serial: nat): nat -> bool {
    (n: nat) => n == serial
  }

  function Answers(serial: nat): Reply -> bool {
    (r: Reply) => r.serial == serial
  }

  function Routes(s: State, serial: nat): nat
    requires serial < |s.requests|
  {
    var key := s.requests[serial].key;
    if key in s.routes && s.routes[key].serial == serial then 1 else 0
  }

  function Replies(s: State, serial: nat): nat { Count(s.replies, Answers(serial)) }

  function Tasks(s: State, serial: nat): nat { Count(s.tasks, Owes(serial)) }

  function Late(s: State, serial: nat): nat { Count(s.late, Is(serial)) }

  function Stolen(s: State, serial: nat): nat { Count(s.stolen, Is(serial)) }

  /** Answers given and answers still owed. */
  predicate Conserved(s: State, serial: nat)
    requires serial < |s.requests|
  {
    && Replies(s, serial) + Routes(s, serial) + Tasks(s, serial) + Stolen(s, serial) == 1 + Late(s, serial)
    && Routes(s, serial) + Tasks(s, serial) <= 1
  }

  ghost predicate Balanced(s: State) {
    && Shaped(s)
    && (forall serial :: 0 <= serial < |s.requests| ==> Conserved(s, serial))
    && (forall r :: r in s.replies ==> r.serial < |s.requests|)
    && (forall serial :: serial in s.late || serial in s.stolen ==> serial < |s.requests|)
  }

  lemma PutKeepsShaped(s: State, k: nat, t: Task)
    requires Shaped(s) && k < |s.tasks| && (t.Finished? || t.serial < |s.requests|)
    ensures Shaped(Put(s, k, t))
  {
  }

  lemma ConcludeKeepsShaped(s: State, k: nat, code: int)
    requires Shaped(s) && k < |s.tasks| && !s.tasks[k].Finished?
    ensures Shaped(Conclude(s, k, code))
  {
    PutKeepsShaped(s, k, Finished);
  }

  lemma RemovalKeepsShaped(s: State, keys: set<string>, more: seq<Task>)
    requires Shaped(s) && forall t :: t in more ==> !t.Finished? && t.serial < |s.requests|
    ensures Shaped(s.(routes := s.routes - keys, tasks := s.tasks + more))
  {
  }

  lemma ArriveKeepsShaped(s: State, request: Request)
    requires Shaped(s)
    ensures Shaped(OnArrive(s, request))
  {
  }

  lemma InsertKeepsShaped(s: State, k: nat, expiresAt: int)
    requires Shaped(s) && k < |s.tasks| && s.tasks[k].Checked? && s.tasks[k].serial < |s.requests|
    ensures Shaped(OnInsert(s, k, expiresAt))
  {
    ConcludeKeepsShaped(s, k, ForwardFailure(s.requests[s.tasks[k].serial].operation));
    PutKeepsShaped(s, k, Sending(s.tasks[k].serial));
  }

  lemma SendFailedKeepsShaped(s: State, k: nat)
    requires Shaped(s) && k < |s.tasks| && s.tasks[k].Sending? && s.tasks[k].serial < |s.requests|
    ensures Shaped(OnSendFailed(s, k))
  {
    var r := s.requests[s.tasks[k].serial];
    ConcludeKeepsShaped(s, k, ForwardFailure(r.operation));
    var s' := Conclude(s, k, ForwardFailure(r.operation));
    assert s'.tasks + [] == s'.tasks;
    RemovalKeepsShaped(s', {r.key}, []);
  }

  lemma IsShaped(s: State)
    requires Shaped(s)
    ensures forall k :: 0 <= k < |s.tasks| && !s.tasks[k].Finished? ==> s.tasks[k].serial < |s.requests|
    ensures forall key :: key in s.routes ==> s.routes[key].serial < |s.requests|
  {
  }

  lemma PieceKeepsShaped(s: State, k: nat, a: Action)
    requires Shaped(s) && k < |s.tasks|
    requires a.Serve? || a.Answer? || a.Choose? || a.Refuse? || a.SkipOwner? || a.Check? || a == Sent(k, true)
    requires a.task == k
    ensures Shaped(Step(s, a)) && Step(s, a).requests == s.requests
  {
    var s' := Step(s, a);
    hide Shaped;
    IsShaped(s);
    if s' != s {
      if s'.tasks[k] == Finished && a != Sent(k, true) {
        ConcludeKeepsShaped(s, k, s'.replies[|s.replies|].code);
      } else {
        PutKeepsShaped(s, k, s'.tasks[k]);
      }
    }
  }

  lemma StepKeepsShaped(s: State, a: Action)
    requires Shaped(s)
    ensures Shaped(Step(s, a)) && s.requests <= Step(s, a).requests
    ensures !a.Arrive? ==> Step(s, a).requests == s.requests
  {
    hide Shaped;
    IsShaped(s);
    match a
    case Arrive(request) => ArriveKeepsShaped(s, request);
    case Close => ClosingKeepsShaped(s);
    case Insert(k, expiresAt) => if k < |s.tasks| && s.tasks[k].Checked? { InsertKeepsShaped(s, k, expiresAt); }
    case Sent(k, false) => if k < |s.tasks| && s.tasks[k].Sending? { SendFailedKeepsShaped(s, k); }
    case Respond(account, key, usageLimit) =>
      if key in s.routes && s.routes[key].account == account {
        RemovalKeepsShaped(s, {key}, [OnRespond(s, account, key, usageLimit).tasks[|s.tasks|]]);
      }
    case Expire(key, now) => if key in s.routes {
      RemovalKeepsShaped(s, {key}, [Answering(s.routes[key].serial, EXPIRED)]); }
    case Drop(key) => if key in s.routes { RemovalKeepsShaped(s, {key}, [Answering(s.routes[key].serial, EXPIRED)]); }
    case _ => if a.task < |s.tasks| {
      hide OnArrive, OnInsert, OnSendFailed, OnRespond, Evict; PieceKeepsShaped(s, a.task, a); }
  }

  lemma ClosingKeepsShaped(s: State)
    requires Shaped(s)
    ensures Shaped(s.(closing := true))
  {
  }

  lemma {:induction false} NoneCounted<T>(s: seq<T>, p: T -> bool)
    requires forall x :: x in s ==> !p(x)
    ensures Count(s, p) == 0
  {
    if s != [] {
      NoneCounted(s[..|s| - 1], p);
    }
  }

  lemma ArriveKeepsConserved(s: State, request: Request, serial: nat)
    requires Balanced(s) && serial <= |s.requests|
    ensures Conserved(OnArrive(s, request), serial)
  {
    var n, s' := |s.requests|, OnArrive(s, request);
    if serial == n {
      NoneCounted(s.replies, Answers(n));
      NoneCounted(s.late, Is(n));
      NoneCounted(s.stolen, Is(n));
      NoneCounted(s.tasks, Owes(n));
    } else {
      assert Conserved(s, serial);
    }
    CountOfAppend(s.replies, Reply(n, SHUTTING_DOWN), Answers(serial));
    CountOfAppend(s.tasks, if SelfServed(request.operation) then Serving(n) else Choosing(n, {}), Owes(serial));
  }

  lemma PutCounts(s: State, k: nat, t: Task, serial: nat)
    requires k < |s.tasks|
    ensures Tasks(Put(s, k, t), serial) + (if Owes(serial)(s.tasks[k]) then 1 else 0) ==
            Tasks(s, serial) + (if Owes(serial)(t) then 1 else 0)
  {
    CountOfUpdate(s.tasks, k, t, Owes(serial));
  }

  lemma ConcludeCounts(s: State, k: nat, code: int, serial: nat)
    requires k < |s.tasks| && !s.tasks[k].Finished?
    ensures var s' := Conclude(s, k, code);
            && Tasks(s', serial) + (if Owes(serial)(s.tasks[k]) then 1 else 0) == Tasks(s, serial)
            && Replies(s', serial) == Replies(s, serial) + (if s.tasks[k].serial == serial then 1 else 0)
  {
    PutCounts(s, k, Finished, serial);
    CountOfAppend(s.replies, Reply(s.tasks[k].serial, code), Answers(serial));
  }

  lemma SendFailedCounts(s: State, k: nat, serial: nat)
    requires k < |s.tasks| && s.tasks[k].Sending? && s.tasks[k].serial < |s.requests|
    ensures var mine, s' := s.tasks[k].serial, OnSendFailed(s, k);
            var key := s.requests[mine].key;
            && s'.routes == s.routes - {key} && s'.requests == s.requests
            && Tasks(s', serial) == Tasks(s, serial)
            && Replies(s', serial) == Replies(s, serial) + (if mine == serial then 1 else 0)
            && Late(s', serial) == Late(s, serial) +
                 (if mine == serial && (key in s.routes ==> s.routes[key].serial != mine) then 1 else 0)
            && Stolen(s', serial) == Stolen(s, serial) +
                 (if key in s.routes && s.routes[key].serial != mine && s.routes[key].serial == serial then 1 else 0)
  {
    SendFailedIs(s, k);
    var mine := s.tasks[k].serial;
    var r := s.requests[mine];
    ConcludeCounts(s, k, ForwardFailure(r.operation), serial);
    hide Conclude, OnSendFailed;
    CountOfAppend(s.late, mine, Is(serial));
    if r.key in s.routes {
      CountOfAppend(s.stolen, s.routes[r.key].serial, Is(serial));
    }
  }

  lemma SendFailedIs(s: State, k: nat)
    requires k < |s.tasks| && s.tasks[k].Sending? && s.tasks[k].serial < |s.requests|
    ensures var mine, s' := s.tasks[k].serial, OnSendFailed(s, k);
            var r := s.requests[mine];
            var concluded := Conclude(s, k, ForwardFailure(r.operation));
            && s'.tasks == concluded.tasks && s'.replies == concluded.replies
            && s'.routes == s.routes - {r.key} && s'.requests == s.requests
            && s'.late == (if r.key in s.routes && s.routes[r.key].serial == mine then s.late else s.late + [mine])
            && s'.stolen == (if r.key in s.routes && s.routes[r.key].serial != mine then
                 s.stolen + [s.routes[r.key].serial] else s.stolen)
  {
  }

  lemma KeyOfRoute(s: State, key: string)
    requires Shaped(s) && key in s.routes
    ensures s.routes[key].serial < |s.requests| && s.requests[s.routes[key].serial].key == key
  {
  }

  lemma SendFailedKeepsConserved(s: State, k: nat, serial: nat)
    requires Balanced(s) && serial < |s.requests| && k < |s.tasks| && s.tasks[k].Sending?
    ensures s.tasks[k].serial < |s.requests| && serial < |OnSendFailed(s, k).requests| &&
              Conserved(OnSendFailed(s, k), serial)
  {
    hide Balanced, Shaped, OnSendFailed, Late, Stolen, Tasks, Replies;
    BalancedIs(s, serial);
    IsShaped(s);
    SendFailedCounts(s, k, serial);
    var key := s.requests[s.tasks[k].serial].key;
    if key in s.routes {
      KeyOfRoute(s, key);
    }
  }

  lemma InsertKeepsConserved(s: State, k: nat, expiresAt: int, serial: nat)
    requires Balanced(s) && serial < |s.requests| && k < |s.tasks| && s.tasks[k].Checked?
    ensures s.tasks[k].serial < |s.requests| && Conserved(OnInsert(s, k, expiresAt), serial)
  {
    BalancedIs(s, serial);
    IsShaped(s);
    hide Balanced, Shaped;
    var t := s.tasks[k];
    if s.requests[t.serial].key in s.routes {
      hide Conserved, Conclude;
      ConcludeKeepsConserved(s, k, ForwardFailure(s.requests[t.serial].operation), serial);
    } else {
      hide Tasks, Replies, Late, Stolen, Put;
      InsertedCounts(s, k, expiresAt, serial);
    }
  }

  lemma InsertedCounts(s: State, k: nat, expiresAt: int, serial: nat)
    requires k < |s.tasks| && s.tasks[k].Checked? && s.tasks[k].serial < |s.requests|
    requires s.requests[s.tasks[k].serial].key !in s.routes
    ensures var s', t := OnInsert(s, k, expiresAt), s.tasks[k];
            var key := s.requests[t.serial].key;
            && s'.requests == s.requests && s'.routes ==
                 s.routes[key := Route(t.serial, t.account, t.excluded, expiresAt)]
            && Tasks(s', serial) == Tasks(s, serial) - (if t.serial == serial then 1 else 0)
            && Replies(s', serial) == Replies(s, serial) && Late(s', serial) == Late(s, serial) &&
                 Stolen(s', serial) == Stolen(s, serial)
  {
    PutCounts(s, k, Sending(s.tasks[k].serial), serial);
  }

  lemma RemovalKeepsConserved(s: State, key: string, t: Task, serial: nat)
    requires Balanced(s) && serial < |s.requests| && key in s.routes && !t.Finished? && !t.Sending? &&
               t.serial == s.routes[key].serial
    ensures Conserved(s.(routes := s.routes - {key}, tasks := s.tasks + [t]), serial)
  {
    assert Conserved(s, serial);
    CountOfAppend(s.tasks, t, Owes(serial));
  }

  /** The pieces in which a task goes on alone either conclude it or keep what it owes. */
  lemma PieceIs(s: State, k: nat, a: Action)
    requires Shaped(s) && k < |s.tasks|
    requires a.Serve? || a.Answer? || a.Choose? || a.Refuse? || a.SkipOwner? || a.Check? || a == Sent(k, true)
    requires a.task == k
    ensures var s', t := Step(s, a), s.tasks[k];
            || s' == s
            || (!t.Finished? && !t.Sending? && exists code :: s' == Conclude(s, k, code))
            || (t.Sending? && s' == Put(s, k, Finished))
            || (!t.Finished? && !t.Sending? && exists t' ::
                  s' == Put(s, k, t') && !t'.Finished? && !t'.Sending? && t'.serial == t.serial)
  {
    hide Shaped, OnArrive, OnInsert, OnSendFailed, OnRespond, Evict;
    IsShaped(s);
    var s' := Step(s, a);
    assert s' == s || s' == Put(s, k, s'.tasks[k]) ||
      (!s.tasks[k].Finished? && s' == Conclude(s, k, s'.replies[|s.replies|].code));
  }

  lemma ConcludeKeepsConserved(s: State, k: nat, code: int, serial: nat)
    requires serial < |s.requests| && k < |s.tasks| && !s.tasks[k].Finished? && !s.tasks[k].Sending? &&
               Conserved(s, serial)
    ensures Conserved(Conclude(s, k, code), serial)
  {
    ConcludeCounts(s, k, code, serial);
  }

  lemma PutKeepsConserved(s: State, k: nat, t: Task, serial: nat)
    requires serial < |s.requests| && k < |s.tasks| && Owes(serial)(t) == Owes(serial)(s.tasks[k]) &&
               Conserved(s, serial)
    ensures Conserved(Put(s, k, t), serial)
  {
    PutCounts(s, k, t, serial);
  }

  lemma TaskStepKeepsConserved(s: State, k: nat, a: Action, serial: nat)
    requires Balanced(s) && serial < |s.requests| && k < |s.tasks|
    requires a.Serve? || a.Answer? || a.Choose? || a.Refuse? || a.SkipOwner? || a.Check? || a == Sent(k, true)
    requires a.task == k
    ensures serial < |Step(s, a).requests| && Conserved(Step(s, a), serial)
  {
    BalancedIs(s, serial);
    StepKeepsShaped(s, a);
    PieceIs(s, k, a);
    hide Balanced, Shaped, Step, Conserved, Put, Conclude;
    var s', t := Step(s, a), s.tasks[k];
    if s' == s {
    } else if code :| !t.Finished? && !t.Sending? && s' == Conclude(s, k, code) {
      ConcludeKeepsConserved(s, k, code, serial);
    } else if t.Sending? {
      PutKeepsConserved(s, k, Finished, serial);
    } else {
      var t' :| s' == Put(s, k, t') && !t'.Finished? && !t'.Sending? && t'.serial == t.serial;
      PutKeepsConserved(s, k, t', serial);
    }
  }

  lemma StepKeepsConserved(s: State, a: Action, serial: nat)
    requires Balanced(s) && serial < |Step(s, a).requests|
    ensures Conserved(Step(s, a), serial)
  {
    hide Conserved, Balanced, OnInsert, OnSendFailed, OnArrive, Conclude;
    BalancedIs(s, serial);
    StepKeepsShaped(s, a);
    match a
    case Arrive(request) => ArriveIsOne(s, request); ArriveKeepsConserved(s, request, serial);
    case Close => ClosingIsNoAnswer(s, serial);
    case Insert(k, expiresAt) => if k < |s.tasks| && s.tasks[k].Checked? {
      InsertKeepsConserved(s, k, expiresAt, serial); }
    case Sent(k, ok) =>
      if k < |s.tasks| && s.tasks[k].Sending? {
        if ok { TaskStepKeepsConserved(s, k, a, serial); } else { SendFailedKeepsConserved(s, k, serial); }
      }
    case Respond(account, key, usageLimit) =>
      if key in s.routes && s.routes[key].account == account {
        var s' := OnRespond(s, account, key, usageLimit);
        RemovalKeepsConserved(s, key, s'.tasks[|s.tasks|], serial);
      }
    case Expire(key, now) => if key in s.routes {
      RemovalKeepsConserved(s, key, Answering(s.routes[key].serial, EXPIRED), serial); }
    case Drop(key) => if key in s.routes {
      RemovalKeepsConserved(s, key, Answering(s.routes[key].serial, EXPIRED), serial); }
    case _ => if a.task < |s.tasks| { TaskStepKeepsConserved(s, a.task, a, serial); }
  }

  lemma BalancedIs(s: State, serial: nat)
    requires Balanced(s)
    ensures Shaped(s) && (serial < |s.requests| ==> Conserved(s, serial))
  {
  }

  lemma ArriveIsOne(s: State, request: Request)
    ensures |OnArrive(s, request).requests| == |s.requests| + 1
  {
  }

  lemma ClosingIsNoAnswer(s: State, serial: nat)
    requires Balanced(s) && serial < |s.requests|
    ensures Conserved(s.(closing := true), serial)
  {
    assert Conserved(s, serial);
  }

  ghost predicate Known(s: State) {
    && (forall r :: r in s.replies ==> r.serial < |s.requests|)
    && (forall serial :: serial in s.late || serial in s.stolen ==> serial < |s.requests|)
  }

  lemma ConcludeIsKnown(s: State, k: nat, code: int)
    requires Known(s) && k < |s.tasks| && !s.tasks[k].Finished? && s.tasks[k].serial < |s.requests|
    ensures Known(Conclude(s, k, code))
  {
  }

  lemma ArriveIsKnown(s: State, request: Request)
    requires Known(s)
    ensures Known(OnArrive(s, request))
  {
  }

  lemma InsertIsKnown(s: State, k: nat, expiresAt: int)
    requires Known(s) && k < |s.tasks| && s.tasks[k].Checked? && s.tasks[k].serial < |s.requests|
    ensures Known(OnInsert(s, k, expiresAt))
  {
    ConcludeIsKnown(s, k, ForwardFailure(s.requests[s.tasks[k].serial].operation));
  }

  lemma SendFailedIsKnown(s: State, k: nat)
    requires Known(s) && Shaped(s) && k < |s.tasks| && s.tasks[k].Sending? && s.tasks[k].serial < |s.requests|
    ensures Known(OnSendFailed(s, k))
  {
    IsShaped(s);
    hide Shaped;
    ConcludeIsKnown(s, k, ForwardFailure(s.requests[s.tasks[k].serial].operation));
  }

  lemma SerialsStayKnown(s: State, a: Action)
    requires Shaped(s) && Known(s)
    ensures Known(Step(s, a))
  {
    IsShaped(s);
    hide Shaped, OnArrive, OnInsert, OnSendFailed, Conclude;
    match a
    case Arrive(request) => ArriveIsKnown(s, request);
    case Insert(k, expiresAt) => if k < |s.tasks| && s.tasks[k].Checked? { InsertIsKnown(s, k, expiresAt); }
    case Sent(k, false) => if k < |s.tasks| && s.tasks[k].Sending? { SendFailedIsKnown(s, k); }
    case Close =>
    case Respond(_, _, _) =>
    case Expire(_, _) =>
    case Drop(_) =>
    case _ =>
      if a.task < |s.tasks| {
        PieceIs(s, a.task, a);
        if code :| !s.tasks[a.task].Finished? && Step(s, a) == Conclude(s, a.task, code) {
          hide Step, Known;
          ConcludeIsKnown(s, a.task, code);
        }
      }
  }

  lemma StepKeepsBalanced(s: State, a: Action)
    requires Balanced(s)
    ensures Balanced(Step(s, a))
  {
    StepKeepsShaped(s, a);
    assert Known(s);
    SerialsStayKnown(s, a);
    forall serial | 0 <= serial < |Step(s, a).requests|
      ensures Conserved(Step(s, a), serial)
    {
      StepKeepsConserved(s, a, serial);
    }
    hide Conserved, Step, Shaped;
  }

  // ---- what a piece leaves alone ----

  /** A piece of goroutine k: it changes no other goroutine, and writes or inserts for its own request only. */
  predicate TouchesOne(s: State, s': State, k: nat)
    requires k < |s.tasks|
  {
    var t := s.tasks[k];
    && |s'.tasks| == |s.tasks| && s'.tasks == s.tasks[k := s'.tasks[k]]
    && s'.requests == s.requests
    && (s' == s ||
         (&& !t.Finished?
          && (s'.tasks[k].Finished? || s'.tasks[k].serial == t.serial)
          && (s'.replies == s.replies ||
               (|s'.replies| == |s.replies| + 1 && s.replies <= s'.replies
                && s'.replies[|s.replies|].serial == t.serial))
          && (forall key :: key in s'.routes ==>
                (key in s.routes && s'.routes[key] == s.routes[key]) || s'.routes[key].serial == t.serial)))
  }

  lemma InsertTouchesOne(s: State, k: nat, expiresAt: int)
    requires Shaped(s) && k < |s.tasks| && s.tasks[k].Checked?
    ensures TouchesOne(s, Step(s, Insert(k, expiresAt)), k)
  {
    IsShaped(s);
    hide Shaped;
  }

  lemma SendFailedTouchesOne(s: State, k: nat)
    requires Shaped(s) && k < |s.tasks| && s.tasks[k].Sending?
    ensures TouchesOne(s, Step(s, Sent(k, false)), k)
  {
    IsShaped(s);
    SendFailedIs(s, k);
    hide Shaped, OnSendFailed;
  }

  lemma PieceTouchesOne(s: State, k: nat, a: Action)
    requires Shaped(s) && k < |s.tasks|
    requires a.Serve? || a.Answer? || a.Choose? || a.Refuse? || a.SkipOwner? || a.Check? || a == Sent(k, true)
    requires a.task == k
    ensures TouchesOne(s, Step(s, a), k)
  {
    PieceIs(s, k, a);
    hide Shaped, Step;
  }
}
