/**
  The scheduler fed by the account snapshots (internal/mux/spending.go, internal/spend/policy.go): candidates are built
  once and kept for a while, and the reservations made of them meanwhile are shared out as Apportionment says.
*/
module Scheduling {
  import opened SpendPolicy
  import A = Apportionment
  import opened Common
  import U = Urgency

  predicate DistinctAccounts(snapshots: seq<U.Snapshot>) {
    && (forall i :: 0 <= i < |snapshots| ==> snapshots[i].id != "")
    && (forall i, j :: 0 <= i < j < |snapshots| ==> snapshots[i].id != snapshots[j].id)
  }

  /** The accounts that may be charged at the moment now. */
  function Field(candidates: seq<Candidate>, now: int, maxAge: int): seq<Candidate> {
    EligibleOf(candidates, "", now, maxAge)
  }

  /** None of the times is before now, nor so late that the sample of an account in the field has aged out. */
  predicate WhileFresh(field: seq<Candidate>, now: int, times: seq<int>, maxAge: int) {
    forall t :: t in times ==> now <= t && forall c :: c in field ==> t - c.observedAt <= maxAge
  }

  /** Snapshots of distinct accounts, no sample from the future, someone to charge, and calls while all is fresh. */
  predicate Offered(candidates: seq<Candidate>, now: int, snapshots: seq<U.Snapshot>,
                    cache: map<string, (U.Credits, int)>, times: seq<int>, maxAge: int)
  {
    && U.BuiltFrom(candidates, now, snapshots, cache)
    && DistinctAccounts(snapshots)
    && (forall i :: 0 <= i < |snapshots| ==> snapshots[i].observedAt <= now)
    && Field(candidates, now, maxAge) != []
    && WhileFresh(Field(candidates, now, maxAge), now, times, maxAge)
  }

  lemma {:induction false} FieldStays(candidates: seq<Candidate>, now: int, t: int, maxAge: int)
    requires now <= t && forall c :: c in candidates ==> c.observedAt <= now
    requires forall c :: c in candidates && Eligible(c, "", now, maxAge) ==> t - c.observedAt <= maxAge
    ensures EligibleOf(candidates, "", t, maxAge) == EligibleOf(candidates, "", now, maxAge)
  {
    if candidates != [] {
      FieldStays(candidates[..|candidates| - 1], now, t, maxAge);
    }
  }

  lemma OfferedIsFixed(candidates: seq<Candidate>, now: int, snapshots: seq<U.Snapshot>,
                       cache: map<string, (U.Credits, int)>, times: seq<int>, maxAge: int)
    requires Offered(candidates, now, snapshots, cache, times, maxAge)
    ensures A.FixedField(Field(candidates, now, maxAge), candidates, times, maxAge)
  {
    hide U.CandidateOf, EligibleOf;
    forall i | 0 <= i < |snapshots|
      ensures candidates[i].id == snapshots[i].id && candidates[i].observedAt == snapshots[i].observedAt
      ensures Eligible(candidates[i], "", now, maxAge) ==> candidates[i].urgency > 0.0
    {
      var credits := U.CreditsOf(cache, snapshots[i].id, now);
      BuiltOf(now, snapshots[i], credits);
      if Eligible(candidates[i], "", now, maxAge) {
        U.EligibleIsUrgent(now, snapshots[i], credits, "", now, maxAge);
      }
    }
    EligibleIdsDistinct(candidates, "", now, maxAge);
    forall t | t in times
      ensures EligibleOf(candidates, "", t, maxAge) == Field(candidates, now, maxAge)
    {
      FieldStays(candidates, now, t, maxAge);
    }
  }

  lemma BuiltOf(now: int, s: U.Snapshot, credits: U.Credits)
    ensures U.CandidateOf(now, s, credits).id == s.id && U.CandidateOf(now, s, credits).observedAt == s.observedAt
  {
  }

  /**
    Whatever the snapshots say, the reservations made of them while they are fresh, none released, all land on
    accounts that may be charged. Each of these holds more than its proportional share less one, none is so loaded that
    another would rather have its last, and no other way to place as many has a lighter most loaded account.
  */
  lemma SharedOutFairly(start: Ledger, candidates: seq<Candidate>, now: int, snapshots: seq<U.Snapshot>,
                        cache: map<string, (U.Credits, int)>, times: seq<int>, maxAge: int)
    requires A.IdleAuto(start) && Offered(candidates, now, snapshots, cache, times, maxAge)
    ensures var field, held := Field(candidates, now, maxAge), A.Held(start, candidates, times, maxAge);
            && A.TotalHeld(field, held) == |times|
            && A.Balanced(field, held)
            && (forall c :: c in field ==>
                  (Load(held, c.id) + 1) as real * A.TotalUrgency(field) > c.urgency * |times| as real)
            && (forall c, other :: c in field && A.TotalHeld(field, other) == |times| ==>
                  exists d :: d in field && A.AtLeastAsLoaded(other, d, held, c))
  {
    hide *;
    var field, held := Field(candidates, now, maxAge), A.Held(start, candidates, times, maxAge);
    OfferedIsFixed(candidates, now, snapshots, cache, times, maxAge);
    A.ReservationsAreBalanced(start, field, candidates, times, maxAge);
    forall c | c in field
      ensures (Load(held, c.id) + 1) as real * A.TotalUrgency(field) > c.urgency * |times| as real
    {
      A.LowerQuota(start, field, candidates, times, maxAge, c);
    }
    forall c, other | c in field && A.TotalHeld(field, other) == |times|
      ensures exists d :: d in field && A.AtLeastAsLoaded(other, d, held, c)
    {
      A.NoAllocationIsLighter(start, field, candidates, times, maxAge, other, c);
    }
  }
}
