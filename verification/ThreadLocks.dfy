/**
  One mutex per thread, shared through a reference-counted table: lockThread of internal/mux/mux.go.

  A participant registers under the table's mutex, waits for the thread's own mutex, holds it, lets it go, and drops its
  reference under the table's mutex again; other participants may act between any two of these.
*/
module ThreadLocks {
  import opened Common

  datatype Phase = Waiting | Holding | Unlocked | Gone

  datatype Participant = Participant(thread: string, lock: nat, phase: Phase)

  /** A lock object; holder is the participant its mutex is locked by. */
  datatype Lock = Lock(refs: int, holder: Option<nat>)

  /** Lock objects are never reused: an object dropped from the table stays in locks. */
  datatype State = State(table: map<string, nat>, locks: seq<Lock>, participants: seq<Participant>)

  datatype Action = Register(thread: string) | Acquire(p: nat) | Unlock(p: nat) | Leave(p: nat)

  const START := State(map[], [], [])

  function Enter(s: State, thread: string): State {
    if thread in s.table && s.table[thread] < |s.locks| then
      var l := s.table[thread];
      s.(locks := s.locks[l := s.locks[l].(refs := s.locks[l].refs + 1)],
         participants := s.participants + [Participant(thread, l, Waiting)])
    else
      var l := |s.locks|;
      s.(table := s.table[thread := l], locks := s.locks + [Lock(1, None)],
         participants := s.participants + [Participant(thread, l, Waiting)])
  }

  function Move(s: State, p: nat, phase: Phase): State
    requires p < |s.participants|
  {
    s.(participants := s.participants[p := s.participants[p].(phase := phase)])
  }

  function Exit(s: State, p: nat): State
    requires p < |s.participants| && s.participants[p].lock < |s.locks|
  {
    var who := s.participants[p];
    var refs := s.locks[who.lock].refs - 1;
    var s' := Move(s, p, Gone).(locks := s.locks[who.lock := s.locks[who.lock].(refs := refs)]);
    if refs == 0 then s'.(table := s.table - {who.thread}) else s'
  }

  predicate Able(s: State, p: nat, phase: Phase) {
    p < |s.participants| && s.participants[p].lock < |s.locks| && s.participants[p].phase == phase
  }

  /** A step its participant is not ready for changes nothing; a mutex is acquired only when it is free. */
  function Step(s: State, a: Action): State {
    match a
    case Register(thread) => Enter(s, thread)
    case Acquire(p) =>
      if Able(s, p, Waiting) && s.locks[s.participants[p].lock].holder.None? then
        var l := s.participants[p].lock;
        Move(s, p, Holding).(locks := s.locks[l := s.locks[l].(holder := Some(p))])
      else s
    case Unlock(p) =>
      if Able(s, p, Holding) then
        var l := s.participants[p].lock;
        Move(s, p, Unlocked).(locks := s.locks[l := s.locks[l].(holder := None)])
      else s
    case Leave(p) => if Able(s, p, Unlocked) then Exit(s, p) else s
  }

  // ---- what every interleaving keeps ----

  /** A participant that has registered for a thread and not yet dropped its reference. */
  function Uses(thread: string): Participant -> bool {
    (q: Participant) => q.thread == thread && q.phase != Gone
  }

  function Users(s: State, thread: string): nat {
    Count(s.participants, Uses(thread))
  }

  predicate Shares(s: State, q: Participant) {
    q.phase != Gone ==> q.thread in s.table && s.table[q.thread] == q.lock
  }

  predicate Counted(s: State, thread: string)
    requires thread in s.table
  {
    && s.table[thread] < |s.locks|
    && s.locks[s.table[thread]].refs == Users(s, thread) > 0
    && (match s.locks[s.table[thread]].holder
        case None => true
        case Some(p) =>
          p < |s.participants| && s.participants[p].phase == Holding && s.participants[p].thread == thread)
  }

  predicate Holds(s: State, p: nat)
    requires p < |s.participants|
  {
    var q := s.participants[p];
    q.phase == Holding ==> q.lock < |s.locks| && s.locks[q.lock].holder == Some(p)
  }

  ghost predicate Sound(s: State) {
    && (forall p :: 0 <= p < |s.participants| ==> Shares(s, s.participants[p]) && Holds(s, p))
    && (forall t :: t in s.table ==> Counted(s, t))
    && (forall t, u :: t in s.table && u in s.table && t != u ==> s.table[t] != s.table[u])
  }

  lemma TableIsSound(s: State)
    requires Sound(s)
    ensures forall t :: t in s.table ==> s.table[t] < |s.locks|
  {
    forall t | t in s.table
      ensures s.table[t] < |s.locks|
    {
      assert Counted(s, t);
    }
  }

  lemma EnteredIsCounted(s: State, thread: string, t: string)
    requires Sound(s) && t in Enter(s, thread).table
    ensures Counted(Enter(s, thread), t)
  {
    var s' := Enter(s, thread);
    TableIsSound(s);
    CountOfAppend(s.participants, s'.participants[|s.participants|], Uses(t));
    if t in s.table {
      assert Counted(s, t);
    } else {
      NobodyUses(s, thread);
    }
    hide Sound;
  }

  lemma EnteredShares(s: State, thread: string, p: nat)
    requires Sound(s) && p < |Enter(s, thread).participants|
    ensures Shares(Enter(s, thread), Enter(s, thread).participants[p]) && Holds(Enter(s, thread), p)
  {
    TableIsSound(s);
    if p < |s.participants| {
      assert Shares(s, s.participants[p]) && Holds(s, p);
    }
    hide Sound;
  }

  lemma EnterKeepsSound(s: State, thread: string)
    requires Sound(s)
    ensures Sound(Enter(s, thread))
  {
    var s' := Enter(s, thread);
    TableIsSound(s);
    forall t | t in s'.table
      ensures Counted(s', t)
    {
      EnteredIsCounted(s, thread, t);
    }
    forall p | 0 <= p < |s'.participants|
      ensures Shares(s', s'.participants[p]) && Holds(s', p)
    {
      EnteredShares(s, thread, p);
    }
    hide Counted, Shares, Holds;
  }

  lemma NobodyUses(s: State, thread: string)
    requires Sound(s) && thread !in s.table
    ensures Users(s, thread) == 0
  {
    forall p | 0 <= p < |s.participants|
      ensures !Uses(thread)(s.participants[p])
    {
      assert Shares(s, s.participants[p]);
    }
    NoneCounted(s.participants, thread);
  }

  lemma {:induction false} NoneCounted(participants: seq<Participant>, thread: string)
    requires forall p :: 0 <= p < |participants| ==> !Uses(thread)(participants[p])
    ensures Count(participants, Uses(thread)) == 0
  {
    if participants != [] {
      NoneCounted(participants[..|participants| - 1], thread);
    }
  }

  /** The participant's lock is the table's, and its count includes the participant. */
  lemma InTheTable(s: State, p: nat)
    requires Sound(s) && p < |s.participants| && s.participants[p].phase != Gone
    ensures var q := s.participants[p];
            q.thread in s.table && s.table[q.thread] == q.lock < |s.locks| && Counted(s, q.thread)
            && forall t :: t in s.table && t != q.thread ==> s.table[t] != q.lock
  {
    assert Shares(s, s.participants[p]);
    assert Counted(s, s.participants[p].thread);
  }

  lemma MutexIsCounted(s: State, p: nat, a: Action, t: string)
    requires Sound(s) && (a == Acquire(p) || a == Unlock(p)) && Step(s, a) != s && t in s.table
    ensures Counted(Step(s, a), t)
  {
    InTheTable(s, p);
    assert Counted(s, t);
    CountOfUpdate(s.participants, p, Step(s, a).participants[p], Uses(t));
    hide Sound;
  }

  lemma MutexShares(s: State, p: nat, a: Action, j: nat)
    requires Sound(s) && (a == Acquire(p) || a == Unlock(p)) && Step(s, a) != s && j < |s.participants|
    ensures Shares(Step(s, a), Step(s, a).participants[j]) && Holds(Step(s, a), j)
  {
    InTheTable(s, p);
    assert Shares(s, s.participants[j]) && Holds(s, j) && Holds(s, p);
    hide Sound;
  }

  lemma MutexKeepsSound(s: State, p: nat, a: Action)
    requires Sound(s) && (a == Acquire(p) || a == Unlock(p))
    ensures Sound(Step(s, a))
  {
    var s' := Step(s, a);
    if s' != s {
      forall t | t in s'.table
        ensures Counted(s', t)
      {
        MutexIsCounted(s, p, a, t);
      }
      forall j | 0 <= j < |s'.participants|
        ensures Shares(s', s'.participants[j]) && Holds(s', j)
      {
        MutexShares(s, p, a, j);
      }
      hide Counted, Shares, Holds;
    }
  }

  lemma ExitedIsCounted(s: State, p: nat, t: string)
    requires Sound(s) && Able(s, p, Unlocked) && t in Exit(s, p).table
    ensures Counted(Exit(s, p), t)
  {
    InTheTable(s, p);
    assert Counted(s, t);
    CountOfUpdate(s.participants, p, Exit(s, p).participants[p], Uses(t));
    hide Sound;
  }

  lemma ExitedShares(s: State, p: nat, j: nat)
    requires Sound(s) && Able(s, p, Unlocked) && j < |s.participants|
    ensures Shares(Exit(s, p), Exit(s, p).participants[j]) && Holds(Exit(s, p), j)
  {
    var s', q := Exit(s, p), s.participants[p];
    InTheTable(s, p);
    assert Shares(s, s.participants[j]) && Holds(s, j);
    CountOfUpdate(s.participants, p, s'.participants[p], Uses(q.thread));
    hide Sound;
    if j != p && Uses(q.thread)(s.participants[j]) {
      assert s'.participants[j] == s.participants[j];
      CountPositive(s'.participants, j, Uses(q.thread));
    }
  }

  lemma ExitKeepsSound(s: State, p: nat)
    requires Sound(s) && Able(s, p, Unlocked)
    ensures Sound(Exit(s, p))
  {
    var s' := Exit(s, p);
    forall t | t in s'.table
      ensures Counted(s', t)
    {
      ExitedIsCounted(s, p, t);
    }
    forall j | 0 <= j < |s'.participants|
      ensures Shares(s', s'.participants[j]) && Holds(s', j)
    {
      ExitedShares(s, p, j);
    }
    hide Counted, Shares, Holds;
  }

  lemma StepKeepsSound(s: State, a: Action)
    requires Sound(s)
    ensures Sound(Step(s, a))
  {
    match a
    case Register(thread) => EnterKeepsSound(s, thread);
    case Acquire(p) => MutexKeepsSound(s, p, a);
    case Unlock(p) => MutexKeepsSound(s, p, a);
    case Leave(p) => if Able(s, p, Unlocked) { ExitKeepsSound(s, p); }
  }

  function Run(actions: seq<Action>): (s: State)
    ensures Sound(s)
  {
    if actions == [] then START
    else
      var s := Run(actions[..|actions| - 1]);
      StepKeepsSound(s, actions[|actions| - 1]);
      Step(s, actions[|actions| - 1])
  }

  /** Two participants never hold one thread's lock at once. */
  lemma MutualExclusion(actions: seq<Action>, p: nat, q: nat)
    requires var s := Run(actions);
             && p < |s.participants| && q < |s.participants|
             && s.participants[p].phase == Holding && s.participants[q].phase == Holding
             && s.participants[p].thread == s.participants[q].thread
    ensures p == q
  {
    var s := Run(actions);
    assert Shares(s, s.participants[p]) && Shares(s, s.participants[q]);
    assert Holds(s, p) && Holds(s, q);
  }

  /**
    All that use a thread share the table's lock for it, and refs counts them; the entry goes when the last one does.
  */
  lemma OneLockPerThread(actions: seq<Action>, thread: string)
    ensures var s := Run(actions);
            && (thread in s.table <==> Users(s, thread) > 0)
            && (thread in s.table ==> s.table[thread] < |s.locks| && s.locks[s.table[thread]].refs == Users(s, thread))
            && forall p :: 0 <= p < |s.participants| && Uses(thread)(s.participants[p]) ==>
                 thread in s.table && s.table[thread] == s.participants[p].lock
  {
    var s := Run(actions);
    if thread in s.table {
      assert Counted(s, thread);
    } else {
      NobodyUses(s, thread);
    }
    forall p | 0 <= p < |s.participants| && Uses(thread)(s.participants[p])
      ensures thread in s.table && s.table[thread] == s.participants[p].lock
    {
      assert Shares(s, s.participants[p]);
    }
  }

  /** No waiter is stranded: its mutex is free to take, or held by a participant that can still let it go. */
  lemma WaitersCanGoOn(actions: seq<Action>, p: nat)
    requires p < |Run(actions).participants| && Run(actions).participants[p].phase == Waiting
    ensures var s := Run(actions);
            || Step(s, Acquire(p)).participants[p].phase == Holding
            || exists q: nat :: q < |s.participants| && s.participants[q].phase == Holding && Step(s, Unlock(q)) != s
                 && s.participants[q].thread == s.participants[p].thread
  {
    var s := Run(actions);
    InTheTable(s, p);
    var l := s.participants[p].lock;
    if s.locks[l].holder.Some? {
      var q := s.locks[l].holder.value;
      InTheTable(s, q);
      assert s.participants[q].phase == Holding && Step(s, Unlock(q)).participants[q].phase == Unlocked;
    }
  }

  // ---- the objects ----

  class ThreadLock {
    var locked: bool
    var refs: int

    constructor ()
      ensures !locked && refs == 0
    {
      locked, refs := false, 0;
    }
  }

  /** The multiplexer's table; objects lists every lock it ever made. */
  class LockTable {
    var threadLocks: map<string, ThreadLock>
    ghost var objects: seq<ThreadLock>
    ghost var state: State

    ghost predicate Valid()
      reads this, objects
    {
      && Sound(state) && |objects| == |state.locks|
      && (forall i, j :: 0 <= i < j < |objects| ==> objects[i] != objects[j])
      && threadLocks.Keys == state.table.Keys
      && (forall t :: t in threadLocks ==> state.table[t] < |objects| && threadLocks[t] == objects[state.table[t]])
      && (forall i :: 0 <= i < |objects| ==>
            objects[i].refs == state.locks[i].refs && objects[i].locked == state.locks[i].holder.Some?)
    }

    constructor ()
      ensures Valid() && state == START && objects == []
    {
      threadLocks, objects, state := map[], [], START;
    }

    /** The part of lockThread under the table's mutex. */
    method Enter(thread: string) returns (lock: ThreadLock)
      requires Valid()
      modifies this, objects
      ensures Valid() && state == Step(old(state), Register(thread))
      ensures objects == old(objects) || (objects == old(objects) + [lock] && fresh(lock))
      ensures thread in threadLocks && threadLocks[thread] == lock
    {
      if thread in threadLocks {
        lock := threadLocks[thread];
        Join(thread, lock);
      } else {
        lock := new ThreadLock();
        Add(thread, lock);
      }
    }

    method Join(thread: string, lock: ThreadLock)
      requires Valid() && thread in threadLocks && threadLocks[thread] == lock
      modifies this, lock
      ensures Valid() && state == Step(old(state), Register(thread))
      ensures objects == old(objects) && threadLocks == old(threadLocks)
    {
      hide Sound, Step;
      StepKeepsSound(state, Register(thread));
      RegisterIs(state, thread);
      state := Step(state, Register(thread));
      lock.refs := lock.refs + 1;
    }

    method Add(thread: string, lock: ThreadLock)
      requires Valid() && thread !in threadLocks && lock !in objects && !lock.locked && lock.refs == 0
      modifies this, lock
      ensures Valid() && state == Step(old(state), Register(thread))
      ensures objects == old(objects) + [lock] && threadLocks == old(threadLocks)[thread := lock]
    {
      hide Sound, Step;
      StepKeepsSound(state, Register(thread));
      TableIsSound(state);
      RegisterIs(state, thread);
      state := Step(state, Register(thread));
      threadLocks := threadLocks[thread := lock];
      objects := objects + [lock];
      lock.refs := lock.refs + 1;
    }

    /** Locking the mutex, at a moment it is free. */
    method Lock(lock: ThreadLock, ghost p: nat)
      requires Valid() && Able(state, p, Waiting) && lock == objects[state.participants[p].lock] && !lock.locked
      modifies this, lock
      ensures Valid() && state == Step(old(state), Acquire(p)) && objects == old(objects) &&
                state.participants[p].phase == Holding
    {
      StepKeepsSound(state, Acquire(p));
      state := Step(state, Acquire(p));
      hide Sound;
      lock.locked := true;
    }

    /** The first half of the release closure. */
    method Release(lock: ThreadLock, ghost p: nat)
      requires Valid() && Able(state, p, Holding) && lock == objects[state.participants[p].lock]
      modifies this, lock
      ensures Valid() && state == Step(old(state), Unlock(p)) && objects == old(objects) && !lock.locked
    {
      StepKeepsSound(state, Unlock(p));
      state := Step(state, Unlock(p));
      hide Sound;
      lock.locked := false;
    }

    /** Its second half, under the table's mutex again. */
    method Drop(thread: string, lock: ThreadLock, ghost p: nat)
      requires Valid() && Able(state, p, Unlocked) && lock == objects[state.participants[p].lock]
      requires thread == state.participants[p].thread
      modifies this, lock
      ensures Valid() && state == Step(old(state), Leave(p)) && objects == old(objects)
    {
      hide Sound, Step;
      StepKeepsSound(state, Leave(p));
      TableIsSound(state);
      LeaveIs(state, p);
      state := Step(state, Leave(p));
      lock.refs := lock.refs - 1;
      if lock.refs == 0 {
        threadLocks := threadLocks - {thread};
      }
    }
  }

  lemma RegisterIs(s: State, thread: string)
    requires Sound(s)
    ensures var s' := Step(s, Register(thread));
            if thread in s.table then
              var l := s.table[thread];
              l < |s.locks| && s'.table == s.table &&
                s'.locks == s.locks[l := Lock(s.locks[l].refs + 1, s.locks[l].holder)]
            else s'.table == s.table[thread := |s.locks|] && s'.locks == s.locks + [Lock(1, None)]
  {
    TableIsSound(s);
  }

  lemma LeaveIs(s: State, p: nat)
    requires Sound(s) && Able(s, p, Unlocked)
    ensures var s', l, thread := Step(s, Leave(p)), s.participants[p].lock, s.participants[p].thread;
            && s'.locks == s.locks[l := Lock(s.locks[l].refs - 1, s.locks[l].holder)]
            && s'.table == (if s.locks[l].refs == 1 then s.table - {thread} else s.table)
  {
  }
}
