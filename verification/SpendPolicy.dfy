/**
  The spend scheduler: internal/spend/policy.go.

  `Policy` is the source's mutex-guarded object. Its methods are proved against `Step`, a transition function
  on a `Ledger`, the value of the policy's fields together with the history of what it has handed out. What
  holds over every run is then proved about `Step`.
*/
module SpendPolicy {
  import opened Common
  import Text

  datatype Candidate = Candidate(
    id: string, enabled: bool, connected: bool, known: bool, remaining: real, urgency: real, observedAt: int)

  datatype Reason = Auto | Strict

  datatype Decision = Decision(sequence: nat, policyRevision: nat, accountId: string, reason: Reason)

  datatype ReserveError = InvalidIdentity | Unavailable | NoCapacity

  /** The guarded fields. The empty mode is Auto; any other names the one account that may be charged. */
  datatype PolicyState = PolicyState(mode: string, revision: nat, sequence: nat, inflight: map<string, int>)

  predicate Counted(inflight: map<string, int>) {
    forall a :: a in inflight ==> inflight[a] > 0
  }

  // ---- choosing ----

  predicate ValidIdentities(candidates: seq<Candidate>) {
    && (forall i :: 0 <= i < |candidates| ==> candidates[i].id != "")
    && (forall i, j :: 0 <= i < j < |candidates| ==> candidates[i].id != candidates[j].id)
  }

  predicate Eligible(c: Candidate, mode: string, now: int, maxAge: int) {
    && c.enabled && c.connected && c.known
    && 0 <= now - c.observedAt <= maxAge
    && 0.0 < c.remaining <= 100.0
    && (mode == "" || mode == c.id)
  }

  function EligibleOf(candidates: seq<Candidate>, mode: string, now: int, maxAge: int): (s: seq<Candidate>)
    ensures forall c :: c in s <==> c in candidates && Eligible(c, mode, now, maxAge)
    ensures |s| <= |candidates|
  {
    if candidates == [] then []
    else
      var last := candidates[|candidates| - 1];
      EligibleOf(candidates[..|candidates| - 1], mode, now, maxAge) +
      (if Eligible(last, mode, now, maxAge) then [last] else [])
  }

  /** Urgency divided by one more than the responses already in flight. */
  function Score(c: Candidate, inflight: map<string, int>): real
    requires Counted(inflight)
  {
    c.urgency / (1 + Load(inflight, c.id)) as real
  }

  /** The comparator of the sort: score, then fewer in flight, then more remaining, then the identity. */
  predicate Precedes(a: Candidate, b: Candidate, inflight: map<string, int>)
    requires Counted(inflight)
  {
    var x, y := Score(a, inflight), Score(b, inflight);
    var m, n := Load(inflight, a.id), Load(inflight, b.id);
    if x != y then x > y
    else if m != n then m < n
    else if a.remaining != b.remaining then a.remaining > b.remaining
    else Text.Less(a.id, b.id)
  }

  lemma PrecedesIsTransitive(a: Candidate, b: Candidate, c: Candidate, inflight: map<string, int>)
    requires Counted(inflight) && Precedes(a, b, inflight) && Precedes(b, c, inflight)
    ensures Precedes(a, c, inflight)
  {
    if Text.Less(a.id, b.id) && Text.Less(b.id, c.id) {
      Text.LessIsTransitive(a.id, b.id, c.id);
    }
  }

  lemma PrecedesIsTotal(a: Candidate, b: Candidate, inflight: map<string, int>)
    requires Counted(inflight)
    ensures a.id != b.id ==> Precedes(a, b, inflight) || Precedes(b, a, inflight)
    ensures !(Precedes(a, b, inflight) && Precedes(b, a, inflight))
  {
    Text.LessIsTotal(a.id, b.id);
  }

  predicate DistinctIds(s: seq<Candidate>) {
    forall i, j :: 0 <= i < j < |s| ==> s[i].id != s[j].id
  }

  /** c is charged next: it stands before every other candidate of s. */
  predicate IsBest(c: Candidate, s: seq<Candidate>, inflight: map<string, int>)
    requires Counted(inflight)
  {
    c in s && forall d :: d in s && d != c ==> Precedes(c, d, inflight)
  }

  function PickBest(s: seq<Candidate>, inflight: map<string, int>): (c: Candidate)
    requires s != [] && Counted(inflight)
    ensures c in s
  {
    if |s| == 1 then s[0]
    else
      var c := PickBest(s[1..], inflight);
      if Precedes(c, s[0], inflight) then c else s[0]
  }

  lemma {:induction false} PickBestIsBest(s: seq<Candidate>, inflight: map<string, int>)
    requires s != [] && Counted(inflight) && DistinctIds(s)
    ensures IsBest(PickBest(s, inflight), s, inflight)
  {
    if |s| > 1 {
      PickBestIsBest(s[1..], inflight);
      var c := PickBest(s[1..], inflight);
      PrecedesIsTotal(c, s[0], inflight);
      forall d | d in s && d != PickBest(s, inflight)
        ensures Precedes(PickBest(s, inflight), d, inflight)
      {
        assert d == s[0] || d in s[1..];
        if PickBest(s, inflight) == s[0] && d != c {
          PrecedesIsTransitive(s[0], c, d, inflight);
        }
      }
    }
  }

  lemma BestIsUnique(c: Candidate, d: Candidate, s: seq<Candidate>, inflight: map<string, int>)
    requires Counted(inflight) && IsBest(c, s, inflight) && IsBest(d, s, inflight)
    ensures c == d
  {
    if c != d {
      PrecedesIsTotal(c, d, inflight);
    }
  }

  /** sort.Slice is a library routine; any routine that orders a permutation would do. */
  method SortCandidates(s: seq<Candidate>, inflight: map<string, int>) returns (t: seq<Candidate>)
    requires Counted(inflight)
    ensures multiset(t) == multiset(s)
    ensures forall i, j :: 0 <= i < j < |t| ==> !Precedes(t[j], t[i], inflight)
  {
    t := [];
    for k := 0 to |s|
      invariant multiset(t) == multiset(s[..k])
      invariant forall i, j :: 0 <= i < j < |t| ==> !Precedes(t[j], t[i], inflight)
    {
      var at := 0;
      while at < |t| && !Precedes(s[k], t[at], inflight)
        invariant at <= |t|
        invariant forall i :: 0 <= i < at ==> !Precedes(s[k], t[i], inflight)
      {
        at := at + 1;
      }
      InsertKeepsOrder(t, s[k], at, inflight);
      assert t == t[..at] + t[at..];
      assert s[..k + 1] == s[..k] + [s[k]];
      t := t[..at] + [s[k]] + t[at..];
    }
    assert s[..|s|] == s;
  }

  lemma InsertKeepsOrder(t: seq<Candidate>, c: Candidate, at: nat, inflight: map<string, int>)
    requires Counted(inflight) && at <= |t|
    requires forall i, j :: 0 <= i < j < |t| ==> !Precedes(t[j], t[i], inflight)
    requires forall i :: 0 <= i < at ==> !Precedes(c, t[i], inflight)
    requires at < |t| ==> Precedes(c, t[at], inflight)
    ensures var u := t[..at] + [c] + t[at..];
            forall i, j :: 0 <= i < j < |u| ==> !Precedes(u[j], u[i], inflight)
  {
    var u := t[..at] + [c] + t[at..];
    forall i, j | 0 <= i < j < |u|
      ensures !Precedes(u[j], u[i], inflight)
    {
      if i == at {
        if Precedes(t[j - 1], c, inflight) {
          PrecedesIsTotal(c, t[at], inflight);
          PrecedesIsTransitive(t[j - 1], c, t[at], inflight);
        }
      }
    }
  }

  // ---- one reservation ----

  /** What Reserve decides and the state it leaves, on an error nothing but the error. */
  function ReserveStep(s: PolicyState, maxAge: int, candidates: seq<Candidate>, now: int)
    : Result<(Decision, PolicyState), ReserveError>
    requires Counted(s.inflight)
  {
    var eligible := EligibleOf(candidates, s.mode, now, maxAge);
    if !ValidIdentities(candidates) then Err(InvalidIdentity)
    else if eligible == [] then Err(if s.mode != "" then Unavailable else NoCapacity)
    else
      var id := PickBest(eligible, s.inflight).id;
      var decision := Decision(s.sequence + 1, s.revision, id, if s.mode != "" then Strict else Auto);
      Ok((decision, s.(sequence := s.sequence + 1, inflight := s.inflight[id := Load(s.inflight, id) + 1])))
  }

  function SetStep(s: PolicyState, mode: string): PolicyState {
    if s.mode != mode then s.(mode := mode, revision := s.revision + 1) else s
  }

  function ReleaseStep(s: PolicyState, id: string): PolicyState {
    var n := Load(s.inflight, id) - 1;
    s.(inflight := if n == 0 then s.inflight - {id} else s.inflight[id := n])
  }

  lemma {:induction false} EligibleIdsDistinct(candidates: seq<Candidate>, mode: string, now: int, maxAge: int)
    requires ValidIdentities(candidates)
    ensures DistinctIds(EligibleOf(candidates, mode, now, maxAge))
  {
    if candidates != [] {
      var front, last := candidates[..|candidates| - 1], candidates[|candidates| - 1];
      EligibleIdsDistinct(front, mode, now, maxAge);
      forall c | c in EligibleOf(front, mode, now, maxAge)
        ensures c.id != last.id
      {
        assert c in front;
      }
    }
  }

  /** The pick is the one eligible candidate that stands before all the others. */
  lemma ReservePicksTheBest(s: PolicyState, maxAge: int, candidates: seq<Candidate>, now: int)
    requires Counted(s.inflight)
    ensures match ReserveStep(s, maxAge, candidates, now)
            case Err(InvalidIdentity) => !ValidIdentities(candidates)
            case Err(Unavailable) => s.mode != "" && forall c :: c in candidates ==> !Eligible(c, s.mode, now, maxAge)
            case Err(NoCapacity) => s.mode == "" && forall c :: c in candidates ==> !Eligible(c, s.mode, now, maxAge)
            case Ok((d, _)) =>
              var eligible := EligibleOf(candidates, s.mode, now, maxAge);
              exists c :: IsBest(c, eligible, s.inflight) && d.accountId == c.id
  {
    var eligible := EligibleOf(candidates, s.mode, now, maxAge);
    forall c | c in candidates && Eligible(c, s.mode, now, maxAge)
      ensures c in eligible
    {
    }
    if ValidIdentities(candidates) && eligible != [] {
      EligibleIdsDistinct(candidates, s.mode, now, maxAge);
      PickBestIsBest(eligible, s.inflight);
    }
  }

  lemma {:induction false} IdentityOccursOnce(s: seq<Candidate>, c: Candidate)
    requires DistinctIds(s)
    ensures multiset(s)[c] <= 1
  {
    if s != [] {
      var front, last := s[..|s| - 1], s[|s| - 1];
      assert s == front + [last];
      IdentityOccursOnce(front, c);
      assert last !in front;
    }
  }

  lemma PermutationKeepsElements(a: seq<Candidate>, b: seq<Candidate>)
    requires multiset(a) == multiset(b)
    ensures forall c :: c in a <==> c in b
  {
    forall c
      ensures c in a <==> c in b
    {
      assert c in a <==> c in multiset(a);
      assert c in b <==> c in multiset(b);
    }
  }

  lemma RepeatOccursTwice(s: seq<Candidate>, i: nat, j: nat)
    requires i < j < |s| && s[i] == s[j]
    ensures multiset(s)[s[i]] >= 2
  {
    assert s == s[..j] + [s[j]] + s[j + 1..];
    assert s[i] in s[..j];
  }

  lemma PermutationKeepsIdentities(a: seq<Candidate>, b: seq<Candidate>)
    requires multiset(a) == multiset(b) && ValidIdentities(a)
    ensures ValidIdentities(b)
  {
    PermutationKeepsElements(a, b);
    forall i, j | 0 <= i < j < |b|
      ensures b[i].id != b[j].id
    {
      assert b[i] in b && b[j] in b;
      assert b[i] in a && b[j] in a;
      var x :| 0 <= x < |a| && a[x] == b[i];
      var y :| 0 <= y < |a| && a[y] == b[j];
      if x == y {
        RepeatOccursTwice(b, i, j);
        IdentityOccursOnce(a, b[i]);
      }
    }
    forall i | 0 <= i < |b|
      ensures b[i].id != ""
    {
      assert b[i] in a;
    }
  }

  /** The order in which the candidates arrive never matters. */
  lemma ReserveIgnoresOrder(s: PolicyState, maxAge: int, a: seq<Candidate>, b: seq<Candidate>, now: int)
    requires Counted(s.inflight) && multiset(a) == multiset(b)
    ensures ReserveStep(s, maxAge, a, now) == ReserveStep(s, maxAge, b, now)
  {
    if ValidIdentities(a) {
      PermutationKeepsIdentities(a, b);
    } else if ValidIdentities(b) {
      PermutationKeepsIdentities(b, a);
    }
    if ValidIdentities(a) {
      var p, q := EligibleOf(a, s.mode, now, maxAge), EligibleOf(b, s.mode, now, maxAge);
      PermutationKeepsElements(a, b);
      if p != [] {
        assert p[0] in q;
        EligibleIdsDistinct(a, s.mode, now, maxAge);
        EligibleIdsDistinct(b, s.mode, now, maxAge);
        PickBestIsBest(p, s.inflight);
        PickBestIsBest(q, s.inflight);
        BestIsUnique(PickBest(p, s.inflight), PickBest(q, s.inflight), p, s.inflight);
      }
    }
  }

  // ---- runs ----

  datatype Reservation = Reservation(decision: Decision, released: bool)

  /** The policy with everything it has handed out; modes[r] is the mode revision r stands for. */
  datatype Ledger = Ledger(policy: PolicyState, reservations: seq<Reservation>, modes: seq<string>)

  datatype Action = Set(mode: string) | Reserve(candidates: seq<Candidate>, now: int) | Release(index: nat)

  const IDLE := Ledger(PolicyState("", 0, 0, map[]), [], [""])

  function Step(l: Ledger, maxAge: int, a: Action): Ledger
    requires Counted(l.policy.inflight)
  {
    match a
    case Set(mode) =>
      l.(policy := SetStep(l.policy, mode), modes := if l.policy.mode != mode then l.modes + [mode] else l.modes)
    case Reserve(candidates, now) => (
      match ReserveStep(l.policy, maxAge, candidates, now)
      case Err(_) => l
      case Ok((decision, policy)) =>
        l.(policy := policy, reservations := l.reservations + [Reservation(decision, false)]))
    case Release(i) =>
      // sync.Once: only the first call of a release closure does anything
      if i >= |l.reservations| || l.reservations[i].released then l
      else
        var r := l.reservations[i];
        l.(policy := ReleaseStep(l.policy, r.decision.accountId),
           reservations := l.reservations[i := r.(released := true)])
  }

  function Open(account: string): Reservation -> bool {
    (r: Reservation) => !r.released && r.decision.accountId == account
  }

  /** The unreleased reservations of one account. */
  function Unreleased(reservations: seq<Reservation>, account: string): nat {
    Count(reservations, Open(account))
  }

  predicate Faithful(d: Decision, modes: seq<string>) {
    && d.policyRevision < |modes|
    && (if modes[d.policyRevision] == "" then d.reason == Auto
        else d.reason == Strict && d.accountId == modes[d.policyRevision])
  }

  ghost predicate Sound(l: Ledger) {
    && Counted(l.policy.inflight)
    && (forall a :: Load(l.policy.inflight, a) == Unreleased(l.reservations, a))
    && |l.reservations| == l.policy.sequence
    && |l.modes| == l.policy.revision + 1 && l.modes[l.policy.revision] == l.policy.mode && l.modes[0] == ""
    && (forall i :: 0 <= i < |l.reservations| ==>
          l.reservations[i].decision.sequence == i + 1 && Faithful(l.reservations[i].decision, l.modes))
    && (forall i, j :: 0 <= i <= j < |l.reservations| ==>
          l.reservations[i].decision.policyRevision <= l.reservations[j].decision.policyRevision)
  }

  lemma ReserveKeepsCounts(l: Ledger, maxAge: int, candidates: seq<Candidate>, now: int)
    requires Counted(l.policy.inflight) && forall a :: Load(l.policy.inflight, a) == Unreleased(l.reservations, a)
    ensures var l' := Step(l, maxAge, Reserve(candidates, now));
            Counted(l'.policy.inflight) && forall a :: Load(l'.policy.inflight, a) == Unreleased(l'.reservations, a)
  {
    var l' := Step(l, maxAge, Reserve(candidates, now));
    if l' != l {
      hide PickBest, EligibleOf, ValidIdentities;
      var r := l'.reservations[|l.reservations|];
      assert l'.reservations == l.reservations + [r];
      forall b
        ensures Load(l'.policy.inflight, b) == Unreleased(l'.reservations, b)
      {
        assert Load(l.policy.inflight, b) == Unreleased(l.reservations, b);
        assert Open(b)(r) == (b == r.decision.accountId);
        CountOfAppend(l.reservations, r, Open(b));
      }
      SomeInflight(l.policy.inflight, r.decision.accountId);
    }
  }

  lemma SomeInflight(inflight: map<string, int>, id: string)
    requires Counted(inflight)
    ensures Load(inflight, id) >= 0 && Counted(inflight[id := Load(inflight, id) + 1])
  {
  }

  lemma ReleaseKeepsCounts(l: Ledger, maxAge: int, i: nat)
    requires Counted(l.policy.inflight) && forall a :: Load(l.policy.inflight, a) == Unreleased(l.reservations, a)
    ensures var l' := Step(l, maxAge, Release(i));
            Counted(l'.policy.inflight) && forall a :: Load(l'.policy.inflight, a) == Unreleased(l'.reservations, a)
  {
    var l' := Step(l, maxAge, Release(i));
    if l' != l {
      var r := l.reservations[i];
      var id := r.decision.accountId;
      CountPositive(l.reservations, i, Open(id));
      assert Load(l.policy.inflight, id) == Unreleased(l.reservations, id) > 0;
      forall b
        ensures Load(l'.policy.inflight, b) == Unreleased(l'.reservations, b)
      {
        assert Load(l.policy.inflight, b) == Unreleased(l.reservations, b);
        assert Open(b)(r) == (b == id) && !Open(b)(r.(released := true));
        CountOfUpdate(l.reservations, i, r.(released := true), Open(b));
      }
    }
  }

  lemma DecisionIsFaithful(l: Ledger, maxAge: int, candidates: seq<Candidate>, now: int)
    requires Sound(l)
    ensures var l' := Step(l, maxAge, Reserve(candidates, now));
            && l'.modes == l.modes && l'.policy.mode == l.policy.mode && l'.policy.revision == l.policy.revision
            && (l' == l ||
                 (exists r :: l'.reservations == l.reservations + [r] && r.decision.sequence == |l.reservations| + 1
                    && l'.policy.sequence == |l.reservations| + 1
                    && r.decision.policyRevision == l.policy.revision && Faithful(r.decision, l.modes)))
  {
    hide Unreleased, PickBest, ValidIdentities;
    var l' := Step(l, maxAge, Reserve(candidates, now));
    if l' != l {
      var r := l'.reservations[|l.reservations|];
      assert l'.reservations == l.reservations + [r];
    }
  }

  lemma ReserveKeepsSound(l: Ledger, maxAge: int, candidates: seq<Candidate>, now: int)
    requires Sound(l)
    ensures Sound(Step(l, maxAge, Reserve(candidates, now)))
  {
    ReserveKeepsCounts(l, maxAge, candidates, now);
    DecisionIsFaithful(l, maxAge, candidates, now);
    hide Unreleased, Counted, Load, Step, Faithful;
  }

  lemma StepKeepsSound(l: Ledger, maxAge: int, a: Action)
    requires Sound(l)
    ensures Sound(Step(l, maxAge, a))
  {
    match a
    case Set(mode) => hide Unreleased, Counted;
    case Reserve(candidates, now) =>
      hide Sound;
      ReserveKeepsSound(l, maxAge, candidates, now);
    case Release(i) =>
      ReleaseKeepsCounts(l, maxAge, i);
      hide Unreleased, Counted, ReleaseStep;
  }

  /** Any run of actions, one after another, from a sound ledger. */
  function Run(l: Ledger, maxAge: int, actions: seq<Action>): (l': Ledger)
    requires Sound(l)
    ensures Sound(l')
  {
    if actions == [] then l
    else
      var before := Run(l, maxAge, actions[..|actions| - 1]);
      StepKeepsSound(before, maxAge, actions[|actions| - 1]);
      Step(before, maxAge, actions[|actions| - 1])
  }

  lemma IdleIsSound()
    ensures Sound(IDLE)
  {
    forall a
      ensures Load(IDLE.policy.inflight, a) == Unreleased(IDLE.reservations, a)
    {
    }
  }

  lemma StepKeepsHistory(l: Ledger, maxAge: int, a: Action)
    requires Counted(l.policy.inflight)
    ensures var l' := Step(l, maxAge, a);
            && l.modes <= l'.modes && |l.reservations| <= |l'.reservations|
            && forall i :: 0 <= i < |l.reservations| ==>
                 && l'.reservations[i].decision == l.reservations[i].decision
                 && (l.reservations[i].released ==> l'.reservations[i].released)
  {
    hide PickBest, EligibleOf, ValidIdentities, Counted;
  }

  /** The history only grows: a decision, a mode or a release once recorded is never revised. */
  lemma {:induction false} HistoryIsKept(l: Ledger, maxAge: int, actions: seq<Action>)
    requires Sound(l)
    ensures var l' := Run(l, maxAge, actions);
            && l.modes <= l'.modes && |l.reservations| <= |l'.reservations|
            && forall i :: 0 <= i < |l.reservations| ==>
                 && l'.reservations[i].decision == l.reservations[i].decision
                 && (l.reservations[i].released ==> l'.reservations[i].released)
  {
    if actions != [] {
      HistoryIsKept(l, maxAge, actions[..|actions| - 1]);
      var before := Run(l, maxAge, actions[..|actions| - 1]);
      hide Sound, Run;
      StepKeepsHistory(before, maxAge, actions[|actions| - 1]);
    }
  }

  /** Calling a release closure again changes nothing, whatever happened in between. */
  lemma ReleaseIsIdempotent(l: Ledger, maxAge: int, i: nat, between: seq<Action>)
    requires Sound(l) && i < |l.reservations|
    ensures var once := Step(l, maxAge, Release(i));
            Sound(once) && var after := Run(once, maxAge, between); Step(after, maxAge, Release(i)) == after
  {
    StepKeepsSound(l, maxAge, Release(i));
    HistoryIsKept(Step(l, maxAge, Release(i)), maxAge, between);
  }

  /** When every reservation has been released the map is empty again: nothing leaks. */
  lemma AllReleasedIsIdle(l: Ledger)
    requires Sound(l)
    ensures (forall i :: 0 <= i < |l.reservations| ==> l.reservations[i].released) <==> l.policy.inflight == map[]
  {
    if forall i :: 0 <= i < |l.reservations| ==> l.reservations[i].released {
      forall a
        ensures a !in l.policy.inflight
      {
        NoneOpen(l.reservations, a);
        assert Load(l.policy.inflight, a) == 0;
      }
    } else {
      var i :| 0 <= i < |l.reservations| && !l.reservations[i].released;
      var a := l.reservations[i].decision.accountId;
      CountPositive(l.reservations, i, Open(a));
      assert Load(l.policy.inflight, a) > 0;
    }
  }

  lemma {:induction false} NoneOpen(reservations: seq<Reservation>, account: string)
    requires forall i :: 0 <= i < |reservations| ==> reservations[i].released
    ensures Unreleased(reservations, account) == 0
  {
    if reservations != [] {
      NoneOpen(reservations[..|reservations| - 1], account);
    }
  }

  // ---- the object ----

  /** The first loop of Reserve: refuse bad identities, keep what may be charged. */
  method FilterCandidates(candidates: seq<Candidate>, mode: string, now: int, maxAge: int)
    returns (r: Result<seq<Candidate>, ReserveError>)
    ensures r == if ValidIdentities(candidates) then Ok(EligibleOf(candidates, mode, now, maxAge))
              else Err(InvalidIdentity)
  {
    hide EligibleOf, ValidIdentities;
    var eligible: seq<Candidate>, seen: set<string> := [], {};
    NoIdentities(candidates[..0], mode, now, maxAge);
    for k := 0 to |candidates|
      invariant ValidIdentities(candidates[..k])
      invariant seen == set c | c in candidates[..k] :: c.id
      invariant eligible == EligibleOf(candidates[..k], mode, now, maxAge)
    {
      var c := candidates[k];
      if c.id == "" || c.id in seen {
        ReappearingIdentity(candidates, k);
        return Err(InvalidIdentity);
      }
      OneMoreIdentity(candidates, k, mode, now, maxAge);
      seen := seen + {c.id};
      if c.enabled && c.connected && c.known && now - c.observedAt >= 0 && now - c.observedAt <= maxAge &&
         c.remaining > 0.0 && c.remaining <= 100.0 && (mode == "" || mode == c.id) {
        eligible := eligible + [c];
      }
    }
    assert candidates[..|candidates|] == candidates;
    return Ok(eligible);
  }

  lemma NoIdentities(candidates: seq<Candidate>, mode: string, now: int, maxAge: int)
    requires candidates == []
    ensures ValidIdentities(candidates) && EligibleOf(candidates, mode, now, maxAge) == []
  {
  }

  lemma OneMoreIdentity(candidates: seq<Candidate>, k: nat, mode: string, now: int, maxAge: int)
    requires k < |candidates| && ValidIdentities(candidates[..k]) && candidates[k].id != ""
    requires forall c :: c in candidates[..k] ==> c.id != candidates[k].id
    ensures ValidIdentities(candidates[..k + 1])
    ensures (set c | c in candidates[..k + 1] :: c.id) == (set c | c in candidates[..k] :: c.id) + {candidates[k].id}
    ensures EligibleOf(candidates[..k + 1], mode, now, maxAge) ==
            EligibleOf(candidates[..k], mode, now, maxAge) +
              (if Eligible(candidates[k], mode, now, maxAge) then [candidates[k]] else [])
  {
    assert candidates[..k + 1] == candidates[..k] + [candidates[k]];
    forall i | 0 <= i < k
      ensures candidates[i].id != candidates[k].id
    {
      assert candidates[i] in candidates[..k];
    }
  }

  class Policy {
    var mode: string
    var revision: nat
    var sequence: nat
    var inflight: map<string, int>
    const maxAge: int
    ghost var ledger: Ledger

    ghost predicate Valid()
      reads this
    {
      ledger.policy == PolicyState(mode, revision, sequence, inflight) && Sound(ledger)
    }

    constructor (maxAge: int)
      ensures Valid() && ledger == IDLE && this.maxAge == maxAge
    {
      this.maxAge := maxAge;
      mode, revision, sequence, inflight := "", 0, 0, map[];
      ledger := IDLE;
      new;
      IdleIsSound();
    }

    method Set(newMode: string)
      requires Valid()
      modifies this
      ensures Valid() && ledger == Step(old(ledger), maxAge, Action.Set(newMode))
    {
      ghost var before := ledger;
      ledger := Step(ledger, maxAge, Action.Set(newMode));
      StepKeepsSound(before, maxAge, Action.Set(newMode));
      if mode != newMode {
        mode := newMode;
        revision := revision + 1;
      }
    }

    /** now is the reading of the clock the source takes under the lock. */
    method Reserve(candidates: seq<Candidate>, now: int) returns (result: Result<(Decision, Release), ReserveError>)
      requires Valid()
      modifies this
      ensures Valid() && ledger == Step(old(ledger), maxAge, Action.Reserve(candidates, now))
      ensures match ReserveStep(old(ledger).policy, maxAge, candidates, now)
              case Err(e) => result == Err(e) && ledger == old(ledger)
              case Ok((decision, _)) =>
                && result.Ok? && result.value.0 == decision
                && fresh(result.value.1) && result.value.1.policy == this && result.value.1.Valid()
                && !result.value.1.done && result.value.1.index == |old(ledger).reservations|
    {
      var filtered := FilterCandidates(candidates, mode, now, maxAge);
      if filtered.Err? {
        return Err(filtered.error);
      }
      var eligible := filtered.value;
      if eligible == [] {
        return Err(if mode != "" then Unavailable else NoCapacity);
      }
      var sorted := SortCandidates(eligible, inflight);
      SortedStartsWithBest(sorted, eligible, inflight, candidates, mode, now, maxAge);
      var id := sorted[0].id;
      ghost var before := ledger;
      ledger := Step(ledger, maxAge, Action.Reserve(candidates, now));
      StepKeepsSound(before, maxAge, Action.Reserve(candidates, now));
      inflight := inflight[id := Load(inflight, id) + 1];
      sequence := sequence + 1;
      var decision := Decision(sequence, revision, id, if mode != "" then Strict else Auto);
      var release := new Release(this, id, |before.reservations|);
      return Ok((decision, release));
    }
  }

  lemma ReappearingIdentity(candidates: seq<Candidate>, k: nat)
    requires k < |candidates|
    requires candidates[k].id == "" || exists c :: c in candidates[..k] && c.id == candidates[k].id
    ensures !ValidIdentities(candidates)
  {
    if candidates[k].id != "" {
      var c :| c in candidates[..k] && c.id == candidates[k].id;
      var i :| 0 <= i < k && candidates[..k][i] == c;
      assert candidates[i].id == candidates[k].id;
    }
  }

  lemma SortedStartsWithBest(sorted: seq<Candidate>, eligible: seq<Candidate>, inflight: map<string, int>,
                             candidates: seq<Candidate>, mode: string, now: int, maxAge: int)
    requires Counted(inflight) && ValidIdentities(candidates) && eligible != []
    requires eligible == EligibleOf(candidates, mode, now, maxAge)
    requires multiset(sorted) == multiset(eligible)
    requires forall i, j :: 0 <= i < j < |sorted| ==> !Precedes(sorted[j], sorted[i], inflight)
    ensures sorted != [] && sorted[0] == PickBest(eligible, inflight)
  {
    PermutationKeepsElements(eligible, sorted);
    EligibleIdsDistinct(candidates, mode, now, maxAge);
    PickBestIsBest(eligible, inflight);
    var best := PickBest(eligible, inflight);
    assert best in sorted;
    var at :| 0 <= at < |sorted| && sorted[at] == best;
    assert sorted[0] in sorted;
  }

  /** The closure Reserve returns. */
  class Release {
    const policy: Policy
    const id: string
    ghost const index: nat
    var done: bool

    ghost predicate Valid()
      reads this, policy
    {
      && policy.Valid() && index < |policy.ledger.reservations|
      && policy.ledger.reservations[index].decision.accountId == id
      && policy.ledger.reservations[index].released == done
    }

    constructor (policy: Policy, id: string, ghost index: nat)
      ensures this.policy == policy && this.id == id && this.index == index && !done
    {
      this.policy := policy;
      this.id := id;
      this.index := index;
      done := false;
    }

    method Call()
      requires Valid()
      modifies this, policy
      ensures Valid() && done
      ensures policy.ledger == Step(old(policy.ledger), policy.maxAge, Action.Release(index))
    {
      ghost var before := policy.ledger;
      policy.ledger := Step(policy.ledger, policy.maxAge, Action.Release(index));
      StepKeepsSound(before, policy.maxAge, Action.Release(index));
      if !done {
        done := true;
        policy.inflight := policy.inflight[id := Load(policy.inflight, id) - 1];
        if policy.inflight[id] == 0 {
          policy.inflight := policy.inflight - {id};
        }
      }
      assert policy.inflight == policy.ledger.policy.inflight;
    }
  }
}
