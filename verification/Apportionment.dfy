/**
  What the scheduler's rule amounts to over a run: reserving by the highest urgency/(1+inflight) is the
  highest-averages rule of D'Hondt, so the reservations held are proportional to urgency in a precise sense.
*/
module Apportionment {
  import opened Common
  import opened SpendPolicy

  function Calls(candidates: seq<Candidate>, times: seq<int>): (actions: seq<Action>)
    ensures |actions| == |times|
  {
    seq(|times|, i requires 0 <= i < |times| => Action.Reserve(candidates, times[i]))
  }

  /** The accounts that may be charged are the same ones, all with positive urgency, at every call. */
  ghost predicate FixedField(field: seq<Candidate>, candidates: seq<Candidate>, times: seq<int>, maxAge: int) {
    && ValidIdentities(candidates) && field != []
    && (forall t :: t in times ==> EligibleOf(candidates, "", t, maxAge) == field)
    && DistinctIds(field)
    && (forall c :: c in field ==> c.urgency > 0.0)
  }

  /** d, which holds Load(d), is not so loaded that c with one more would be less loaded: u(d)(n(c)+1) >= u(c)n(d). */
  predicate NoEnvy(c: Candidate, d: Candidate, held: map<string, int>) {
    d.urgency * (Load(held, c.id) + 1) as real >= c.urgency * Load(held, d.id) as real
  }

  ghost predicate Balanced(field: seq<Candidate>, held: map<string, int>) {
    forall c, d {:trigger NoEnvy(c, d, held)} :: c in field && d in field ==> NoEnvy(c, d, held)
  }

  function TotalHeld(field: seq<Candidate>, held: map<string, int>): int {
    if field == [] then 0 else TotalHeld(field[..|field| - 1], held) + Load(held, field[|field| - 1].id)
  }

  function TotalUrgency(field: seq<Candidate>): real {
    if field == [] then 0.0 else TotalUrgency(field[..|field| - 1]) + field[|field| - 1].urgency
  }

  lemma Product(a: real, b: real, c: real)
    requires a >= b && c >= 0.0
    ensures a * c >= b * c
  {
  }

  lemma CrossMultiply(a: real, m: real, b: real, n: real)
    requires m > 0.0 && n > 0.0 && a / m >= b / n
    ensures a * n >= b * m
  {
    var x, y := a / m, b / n;
    Product(x, y, m * n);
    assert a * n == x * (m * n) && b * m == y * (m * n);
  }

  lemma BestKeepsNoEnvy(c: Candidate, d: Candidate, held: map<string, int>, best: Candidate)
    requires Counted(held) && NoEnvy(c, d, held) && c.urgency > 0.0 && d.urgency > 0.0
    requires d == best && c.id != d.id ==> Score(best, held) >= Score(c, held)
    requires (c.id == best.id ==> c == best) && (d.id == best.id ==> d == best)
    ensures NoEnvy(c, d, held[best.id := Load(held, best.id) + 1])
  {
    var m, n := Load(held, c.id), Load(held, d.id);
    if c.id == d.id {
      if d == best {
        assert d.urgency * (n + 2) as real == d.urgency * (n + 1) as real + d.urgency;
      }
    } else if d == best {
      CrossMultiply(d.urgency, (1 + n) as real, c.urgency, (1 + m) as real);
    } else if c == best {
      Product((m + 2) as real, (m + 1) as real, d.urgency);
    }
  }

  lemma BestKeepsBalance(field: seq<Candidate>, held: map<string, int>, best: Candidate)
    requires Counted(held) && IsBest(best, field, held) && Balanced(field, held) && DistinctIds(field)
    requires forall c :: c in field ==> c.urgency > 0.0
    ensures Balanced(field, held[best.id := Load(held, best.id) + 1])
  {
    forall c, d | c in field && d in field
      ensures NoEnvy(c, d, held[best.id := Load(held, best.id) + 1])
    {
      assert NoEnvy(c, d, held);
      if c != best {
        assert Precedes(best, c, held);
      }
      BestKeepsNoEnvy(c, d, held, best);
    }
  }

  lemma {:induction false} TotalHeldOfOneMore(field: seq<Candidate>, held: map<string, int>, best: Candidate)
    requires DistinctIds(field)
    ensures TotalHeld(field, held[best.id := Load(held, best.id) + 1]) ==
            TotalHeld(field, held) + (if exists c :: c in field && c.id == best.id then 1 else 0)
  {
    if field != [] {
      var front, last := field[..|field| - 1], field[|field| - 1];
      TotalHeldOfOneMore(front, held, best);
      assert field == front + [last];
      assert forall c :: c in front ==> c.id != last.id;
    }
  }

  /** An idle Auto policy: nothing in flight, whatever happened before. */
  ghost predicate IdleAuto(start: Ledger) {
    Sound(start) && start.policy.mode == "" && start.policy.inflight == map[]
  }

  /** The reservations held after a call at each of the times, with no release in between. */
  ghost function Held(start: Ledger, candidates: seq<Candidate>, times: seq<int>, maxAge: int): map<string, int>
    requires IdleAuto(start)
  {
    Run(start, maxAge, Calls(candidates, times)).policy.inflight
  }

  lemma OneMoreReservation(l: Ledger, field: seq<Candidate>, candidates: seq<Candidate>, now: int, maxAge: int)
    requires Counted(l.policy.inflight) && l.policy.mode == ""
    requires FixedField(field, candidates, [now], maxAge) && Balanced(field, l.policy.inflight)
    ensures var l' := Step(l, maxAge, Action.Reserve(candidates, now));
            && l'.policy.mode == ""
            && Balanced(field, l'.policy.inflight)
            && TotalHeld(field, l'.policy.inflight) == TotalHeld(field, l.policy.inflight) + 1
  {
    var held := l.policy.inflight;
    assert EligibleOf(candidates, "", now, maxAge) == field;
    PickBestIsBest(field, held);
    var best := PickBest(field, held);
    BestKeepsBalance(field, held, best);
    TotalHeldOfOneMore(field, held, best);
  }

  /** N reservations against one field, none released: every one lands in the field, and it stays balanced. */
  lemma {:induction false} ReservationsAreBalanced(start: Ledger, field: seq<Candidate>, candidates: seq<Candidate>,
                                                   times: seq<int>, maxAge: int)
    requires IdleAuto(start) && FixedField(field, candidates, times, maxAge)
    ensures Run(start, maxAge, Calls(candidates, times)).policy.mode == ""
    ensures Balanced(field, Held(start, candidates, times, maxAge))
    ensures TotalHeld(field, Held(start, candidates, times, maxAge)) == |times|
  {
    hide Sound, Balanced, EligibleOf, Step;
    if times == [] {
      NothingHeld(field);
      NothingHeldIsBalanced(field);
    } else {
      var n := |times| - 1;
      assert FixedField(field, candidates, [times[n]], maxAge);
      ReservationsAreBalanced(start, field, candidates, times[..n], maxAge);
      assert Calls(candidates, times)[..n] == Calls(candidates, times[..n]);
      SoundIsCounted(Run(start, maxAge, Calls(candidates, times[..n])));
      OneMoreReservation(Run(start, maxAge, Calls(candidates, times[..n])), field, candidates, times[n], maxAge);
    }
  }

  lemma SoundIsCounted(l: Ledger)
    requires Sound(l)
    ensures Counted(l.policy.inflight)
  {
  }

  lemma NothingHeldIsBalanced(field: seq<Candidate>)
    requires forall c :: c in field ==> c.urgency > 0.0
    ensures Balanced(field, map[])
  {
  }

  lemma {:induction false} NothingHeld(field: seq<Candidate>)
    ensures TotalHeld(field, map[]) == 0
  {
    if field != [] {
      NothingHeld(field[..|field| - 1]);
    }
  }

  /** Every account holds more than its proportional share less one: n(c) + 1 > N * u(c) / U. */
  lemma LowerQuota(start: Ledger, field: seq<Candidate>, candidates: seq<Candidate>, times: seq<int>, maxAge: int,
                   c: Candidate)
    requires IdleAuto(start) && FixedField(field, candidates, times, maxAge) && c in field
    ensures (Load(Held(start, candidates, times, maxAge), c.id) + 1) as real * TotalUrgency(field) >
              c.urgency * |times| as real
  {
    hide Sound, Run, Held, EligibleOf;
    ReservationsAreBalanced(start, field, candidates, times, maxAge);
    QuotaOverTotal(field, Held(start, candidates, times, maxAge), c, |times|);
  }

  lemma QuotaOverTotal(field: seq<Candidate>, held: map<string, int>, c: Candidate, total: int)
    requires c in field && c.urgency > 0.0 && Balanced(field, held) && TotalHeld(field, held) == total
    ensures (Load(held, c.id) + 1) as real * TotalUrgency(field) > c.urgency * total as real
  {
    forall d | d in field
      ensures NoEnvy(c, d, held)
    {
    }
    QuotaOverPrefix(field, held, c);
  }

  lemma AddShares(share: real, u: real, du: real, cu: real, h: real, dh: real)
    requires share * u >= cu * h && du * share >= cu * dh
    ensures share * (u + du) >= cu * (h + dh)
    ensures share * u > cu * h || du * share > cu * dh ==> share * (u + du) > cu * (h + dh)
  {
    assert share * (u + du) == share * u + du * share;
    assert cu * (h + dh) == cu * h + cu * dh;
  }

  lemma NoEnvyShares(c: Candidate, d: Candidate, held: map<string, int>)
    requires NoEnvy(c, d, held) && c.urgency > 0.0
    ensures var share := (Load(held, c.id) + 1) as real;
            && d.urgency * share >= c.urgency * Load(held, d.id) as real
            && (d == c ==> d.urgency * share > c.urgency * Load(held, d.id) as real)
  {
    assert (Load(held, c.id) + 1) as real == Load(held, c.id) as real + 1.0;
  }

  lemma {:induction false} QuotaOverPrefix(field: seq<Candidate>, held: map<string, int>, c: Candidate)
    requires c.urgency > 0.0
    requires forall d {:trigger NoEnvy(c, d, held)} :: d in field ==> NoEnvy(c, d, held)
    ensures (Load(held, c.id) + 1) as real * TotalUrgency(field) >= c.urgency * TotalHeld(field, held) as real
    ensures c in field ==>
              (Load(held, c.id) + 1) as real * TotalUrgency(field) > c.urgency * TotalHeld(field, held) as real
  {
    if field != [] {
      var front, d := field[..|field| - 1], field[|field| - 1];
      QuotaOverPrefix(front, held, c);
      assert NoEnvy(c, d, held);
      var share := (Load(held, c.id) + 1) as real;
      NoEnvyShares(c, d, held);
      hide NoEnvy, Load;
      AddShares(share, TotalUrgency(front), d.urgency, c.urgency, TotalHeld(front, held) as real,
        Load(held, d.id) as real);
    }
  }

  /** The load of c under held is matched or exceeded by the load of d under other: n'(d)/u(d) >= n(c)/u(c). */
  predicate AtLeastAsLoaded(other: map<string, int>, d: Candidate, held: map<string, int>, c: Candidate) {
    Load(other, d.id) as real * c.urgency >= Load(held, c.id) as real * d.urgency
  }

  /**
    No other way to place as many reservations loads its most loaded account less: against any alternative with
    the same total, every account's load n(c)/u(c) is matched or exceeded by some account of the alternative.
  */
  lemma NoAllocationIsLighter(start: Ledger, field: seq<Candidate>, candidates: seq<Candidate>, times: seq<int>,
                              maxAge: int, other: map<string, int>, c: Candidate)
    requires IdleAuto(start) && FixedField(field, candidates, times, maxAge) && c in field
    requires TotalHeld(field, other) == |times|
    ensures exists d :: d in field &&
              AtLeastAsLoaded(other, d, Held(start, candidates, times, maxAge), c)
  {
    hide Sound, Run, Held, EligibleOf;
    ReservationsAreBalanced(start, field, candidates, times, maxAge);
    BalancedIsLightest(field, Held(start, candidates, times, maxAge), other, c);
  }

  lemma BalancedIsLightest(field: seq<Candidate>, held: map<string, int>, other: map<string, int>, c: Candidate)
    requires c in field && c.urgency > 0.0 && Balanced(field, held) && TotalHeld(field, other) == TotalHeld(field, held)
    ensures exists d :: d in field && AtLeastAsLoaded(other, d, held, c)
  {
    if Load(other, c.id) >= Load(held, c.id) {
      Product(Load(other, c.id) as real, Load(held, c.id) as real, c.urgency);
      assert AtLeastAsLoaded(other, c, held, c);
    } else {
      var d := SomeoneHoldsMore(field, held, other, c);
      assert NoEnvy(d, c, held);
      Product(Load(other, d.id) as real, (Load(held, d.id) + 1) as real, c.urgency);
      assert AtLeastAsLoaded(other, d, held, c);
    }
  }

  lemma {:induction false} SomeoneHoldsMore(field: seq<Candidate>, held: map<string, int>, other: map<string, int>,
                                            c: Candidate)
    returns (d: Candidate)
    requires c in field && Load(other, c.id) < Load(held, c.id)
    requires TotalHeld(field, other) >= TotalHeld(field, held)
    ensures d in field && Load(other, d.id) > Load(held, d.id)
  {
    var front, last := field[..|field| - 1], field[|field| - 1];
    if Load(other, last.id) > Load(held, last.id) {
      d := last;
    } else if c in front {
      d := SomeoneHoldsMore(front, held, other, c);
    } else {
      d := SomeoneHoldsMoreOnTotal(front, held, other);
    }
  }

  lemma {:induction false} SomeoneHoldsMoreOnTotal(field: seq<Candidate>, held: map<string, int>,
                                                   other: map<string, int>)
    returns (d: Candidate)
    requires TotalHeld(field, other) > TotalHeld(field, held)
    ensures d in field && Load(other, d.id) > Load(held, d.id)
  {
    var front, last := field[..|field| - 1], field[|field| - 1];
    if Load(other, last.id) > Load(held, last.id) {
      d := last;
    } else {
      d := SomeoneHoldsMoreOnTotal(front, held, other);
    }
  }
}
