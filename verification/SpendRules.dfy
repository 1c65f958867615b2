/** What the spend policy decides, in terms of the candidates it is given (internal/spend/policy.go). */
module SpendRules {
  import opened Common
  import opened SpendPolicy
  import Text

  /** The account can pay now: switched on, connected, known to have something left, by a sample that is recent. */
  predicate CanPay(c: Candidate, now: int, maxAge: int) {
    c.enabled && c.connected && c.known && 0.0 < c.remaining <= 100.0 && now - maxAge <= c.observedAt <= now
  }

  predicate MayPay(c: Candidate, mode: string, now: int, maxAge: int) {
    CanPay(c, now, maxAge) && (mode != "" ==> c.id == mode)
  }

  /**
    c goes before d: its urgency for each response in flight, its own to come included, is higher; or that is equal
    and it has fewer in flight; or that too and it has more left; or that too and its name comes first.
  */
  ghost predicate Outranks(c: Candidate, d: Candidate, inflight: map<string, int>) {
    var m, n := Load(inflight, c.id), Load(inflight, d.id);
    var x, y := c.urgency * (1 + n) as real, d.urgency * (1 + m) as real;
    || x > y
    || (x == y && m < n)
    || (x == y && m == n && c.remaining > d.remaining)
    || (x == y && m == n && c.remaining == d.remaining && exists k: nat :: Text.DiffersAt(c.id, d.id, k))
  }

  lemma Quotients(a: real, m: real, b: real, n: real)
    requires m > 0.0 && n > 0.0
    ensures a / m > b / n <==> a * n > b * m
    ensures a / m == b / n <==> a * n == b * m
  {
    var x, y := a / m, b / n;
    assert a * n == x * (m * n) && b * m == y * (m * n);
    Larger(x, y, m * n);
    Larger(y, x, m * n);
  }

  lemma Larger(x: real, y: real, h: real)
    requires h > 0.0
    ensures x * h > y * h <==> x > y
  {
  }

  lemma PrecedesIsOutranking(c: Candidate, d: Candidate, inflight: map<string, int>)
    requires Counted(inflight)
    ensures Precedes(c, d, inflight) <==> Outranks(c, d, inflight)
  {
    Quotients(c.urgency, (1 + Load(inflight, c.id)) as real, d.urgency, (1 + Load(inflight, d.id)) as real);
    Text.LessIsLexicographic(c.id, d.id);
    hide Text.Less, Text.DiffersAt;
  }

  /** No identity is empty, and no two are the same. */
  predicate Named(candidates: seq<Candidate>) {
    && (forall i :: 0 <= i < |candidates| ==> candidates[i].id != "")
    && (forall i, j :: 0 <= i < |candidates| && 0 <= j < |candidates| && i != j ==>
          candidates[i].id != candidates[j].id)
  }

  /** The one that pays: it may, and goes before every other that may. */
  ghost predicate Payer(c: Candidate, s: PolicyState, candidates: seq<Candidate>, now: int, maxAge: int) {
    && c in candidates && MayPay(c, s.mode, now, maxAge)
    && forall d :: d in candidates && MayPay(d, s.mode, now, maxAge) && d.id != c.id ==> Outranks(c, d, s.inflight)
  }

  /**
    A reservation fails if and only if the identities are bad or nobody may pay, and says which; otherwise the payer
    is charged one response more, and the decision carries its name, the next number, the mode's revision and how it
    was made.
  */
  lemma ReservedExactly(s: PolicyState, maxAge: int, candidates: seq<Candidate>, now: int)
    requires Counted(s.inflight)
    ensures match ReserveStep(s, maxAge, candidates, now)
            case Err(InvalidIdentity) => !Named(candidates)
            case Err(error) =>
              && Named(candidates) && (forall c :: c in candidates ==> !MayPay(c, s.mode, now, maxAge))
              && error == (if s.mode == "" then NoCapacity else Unavailable)
            case Ok((d, s')) =>
              && Named(candidates)
              && (exists c :: Payer(c, s, candidates, now, maxAge) && d.accountId == c.id)
              && d.sequence == s.sequence + 1 && d.policyRevision == s.revision
              && (d.reason == Strict <==> s.mode != "")
              && s' == PolicyState(s.mode, s.revision, s.sequence + 1,
                                   s.inflight[d.accountId := Load(s.inflight, d.accountId) + 1])
  {
    var eligible := EligibleOf(candidates, s.mode, now, maxAge);
    assert Named(candidates) <==> ValidIdentities(candidates);
    assert forall c :: c in eligible <==> c in candidates && MayPay(c, s.mode, now, maxAge);
    hide EligibleOf, Named, ValidIdentities, MayPay;
    if ValidIdentities(candidates) && eligible != [] {
      EligibleIdsDistinct(candidates, s.mode, now, maxAge);
      PickBestIsBest(eligible, s.inflight);
      var c := PickBest(eligible, s.inflight);
      forall d | d in candidates && MayPay(d, s.mode, now, maxAge) && d.id != c.id
        ensures Outranks(c, d, s.inflight)
      {
        PrecedesIsOutranking(c, d, s.inflight);
      }
      assert Payer(c, s, candidates, now, maxAge);
    } else if eligible == [] {
      forall c | c in candidates
        ensures !MayPay(c, s.mode, now, maxAge)
      {
        assert c !in eligible;
      }
    }
  }

  /** Setting the mode counts a revision if and only if it is another mode, and touches nothing else. */
  lemma ModeIsSet(l: Ledger, maxAge: int, mode: string)
    requires Counted(l.policy.inflight)
    ensures var l' := Step(l, maxAge, Set(mode));
            && l'.policy.mode == mode
            && l'.policy.revision == l.policy.revision + (if mode == l.policy.mode then 0 else 1)
            && l'.policy.sequence == l.policy.sequence && l'.policy.inflight == l.policy.inflight
            && l'.reservations == l.reservations
  {
  }

  /**
    The first release of a reservation takes one from its account's count and drops the entry at zero; later ones
    nothing.
  */
  lemma ReleasedExactly(l: Ledger, maxAge: int, i: nat)
    requires Sound(l) && i < |l.reservations|
    ensures var l' := Step(l, maxAge, Release(i));
            var account := l.reservations[i].decision.accountId;
            var n := Load(l.policy.inflight, account);
            if l.reservations[i].released then l' == l
            else
              && n > 0 && l'.reservations == l.reservations[i := Reservation(l.reservations[i].decision, true)]
              && l'.policy == l.policy.(inflight := if n == 1 then l.policy.inflight - {account}
                                                    else l.policy.inflight[account := n - 1])
  {
    var account := l.reservations[i].decision.accountId;
    if !l.reservations[i].released {
      CountPositive(l.reservations, i, Open(account));
    }
  }
}
