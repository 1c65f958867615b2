/**
  What the scheduler is fed: the urgency score and the candidates built from account snapshots
  (internal/mux/accounts.go, internal/mux/spending.go), and the older per-thread account choice.
  Times are in nanoseconds. Floating-point numbers are reals.
*/
module Urgency {
  import opened Common
  import SpendPolicy

  datatype Window = Window(usedPercent: real, durationMins: Option<int>, resetsAt: Option<int>)

  datatype Limits = Limits(primary: Option<Window>, secondary: Option<Window>)

  datatype Credits = Credits(known: bool, availableCount: int)

  datatype Snapshot = Snapshot(
    id: string, enabled: bool, connected: bool, authType: string, limits: Option<Limits>, observedAt: int)

  const SECOND := 1_000_000_000
  const MINUTE := 60 * SECOND
  const HOUR := 60 * MINUTE
  const FALLBACK_WINDOW := 7 * 24 * HOUR
  const MINIMUM_WINDOW := MINUTE
  const RESET_BONUS_PER_CREDIT := 0.15
  const RESET_BONUS_CREDIT_CAP := 3
  const MAX_INT64: int := 0x7fff_ffff_ffff_ffff
  const MIN_INT64: int := -0x8000_0000_0000_0000

  function Min(a: real, b: real): real { if a <= b then a else b }
  function Max(a: real, b: real): real { if a >= b then a else b }

  function Duration(w: Window): int {
    if w.durationMins.Some? then w.durationMins.value else 0
  }

  /** The weekly window and the short window: the longest and the shortest reported, the later one on a tie. */
  function LongestAndShortest(limits: Option<Limits>): (Option<Window>, Option<Window>) {
    match limits
    case None => (None, None)
    case Some(Limits(None, second)) => (second, second)
    case Some(Limits(first, None)) => (first, first)
    case Some(Limits(Some(first), Some(second))) =>
      if Duration(second) < Duration(first) then (Some(first), Some(second)) else (Some(second), Some(first))
  }

  predicate Reported(limits: Option<Limits>, w: Window) {
    limits.Some? && (limits.value.primary == Some(w) || limits.value.secondary == Some(w))
  }

  /** In minutes; a window of unknown length counts as the shortest. */
  function Length(w: Window): int {
    match w.durationMins
    case None => 0
    case Some(minutes) => minutes
  }

  predicate BothReported(limits: Option<Limits>) {
    limits.Some? && limits.value.primary.Some? && limits.value.secondary.Some?
  }

  /** The longest window reported, the secondary one if they are equally long. */
  ghost predicate Weekly(limits: Option<Limits>, w: Window) {
    && Reported(limits, w) && (forall v :: Reported(limits, v) ==> Length(v) <= Length(w))
    && (BothReported(limits) && Length(limits.value.primary.value) == Length(limits.value.secondary.value) ==>
          limits.value.secondary == Some(w))
  }

  /** The shortest window reported, the primary one if they are equally long. */
  ghost predicate Short(limits: Option<Limits>, w: Window) {
    && Reported(limits, w) && (forall v :: Reported(limits, v) ==> Length(v) >= Length(w))
    && (BothReported(limits) && Length(limits.value.primary.value) == Length(limits.value.secondary.value) ==>
          limits.value.primary == Some(w))
  }

  lemma WeeklyAndShort(limits: Option<Limits>)
    ensures var (weekly, short) := LongestAndShortest(limits);
            && (forall w :: Weekly(limits, w) <==> weekly == Some(w))
            && (forall w :: Short(limits, w) <==> short == Some(w))
            && (forall w :: Reported(limits, w) <==> weekly == Some(w) || short == Some(w))
            && (weekly.Some? <==> short.Some?)
  {
    var (weekly, short) := LongestAndShortest(limits);
    if limits.Some? {
      assert limits.value.primary.Some? ==> Reported(limits, limits.value.primary.value);
      assert limits.value.secondary.Some? ==> Reported(limits, limits.value.secondary.value);
    }
  }

  /** The product of two durations as Go computes it in 64 bits. */
  function Wrap64(n: int): (r: int)
    ensures MIN_INT64 <= r <= MAX_INT64
  {
    (n - MIN_INT64) % 0x1_0000_0000_0000_0000 + MIN_INT64
  }

  /** time.Time.Sub saturates at the ends of the 64-bit range. */
  function Saturate64(n: int): int {
    if n > MAX_INT64 then MAX_INT64 else if n < MIN_INT64 then MIN_INT64 else n
  }

  function Horizon(now: int, w: Window): (h: int)
    ensures h >= MINIMUM_WINDOW
  {
    var byLength := if w.durationMins.Some? && w.durationMins.value > 0
                    then Wrap64(w.durationMins.value * MINUTE) else FALLBACK_WINDOW;
    var byReset := if w.resetsAt.Some? && Saturate64(w.resetsAt.value * SECOND - now) > 0
                   then Saturate64(w.resetsAt.value * SECOND - now) else byLength;
    if byReset < MINIMUM_WINDOW then MINIMUM_WINDOW else byReset
  }

  function RouteUrgency(now: int, weekly: Option<Window>, credits: Credits): real {
    match weekly
    case None => -1.0
    case Some(w) =>
      var remaining := Max(0.0, Min(100.0, 100.0 - w.usedPercent));
      var urgency := remaining / (Horizon(now, w) as real / HOUR as real);
      if credits.known && credits.availableCount > 0 then
        var count := if credits.availableCount < RESET_BONUS_CREDIT_CAP then credits.availableCount
          else RESET_BONUS_CREDIT_CAP;
        urgency * (1.0 + count as real * RESET_BONUS_PER_CREDIT)
      else urgency
  }

  lemma QuotientIsPositive(a: real, b: real)
    requires a >= 0.0 && b > 0.0
    ensures a / b >= 0.0 && (a / b > 0.0 <==> a > 0.0)
  {
    var q := a / b;
    assert q * b == a;
  }

  lemma ProductIsPositive(a: real, b: real)
    requires a >= 0.0 && b > 0.0
    ensures a * b >= 0.0 && (a * b > 0.0 <==> a > 0.0)
  {
  }

  /** An account scores above zero exactly when its longest window is known and not used up. */
  lemma UrgencyIsPositive(now: int, weekly: Option<Window>, credits: Credits)
    ensures RouteUrgency(now, weekly, credits) > 0.0 <==> weekly.Some? && weekly.value.usedPercent < 100.0
  {
    if weekly.Some? {
      var w := weekly.value;
      var remaining := Max(0.0, Min(100.0, 100.0 - w.usedPercent));
      var hours := Horizon(now, w) as real / HOUR as real;
      QuotientIsPositive(Horizon(now, w) as real, HOUR as real);
      QuotientIsPositive(remaining, hours);
      if credits.known && credits.availableCount > 0 {
        var count := if credits.availableCount < RESET_BONUS_CREDIT_CAP then credits.availableCount
          else RESET_BONUS_CREDIT_CAP;
        ProductIsPositive(remaining / hours, 1.0 + count as real * RESET_BONUS_PER_CREDIT);
      }
    }
  }

  // ---- candidates for spending ----

  function CandidateOf(now: int, s: Snapshot, credits: Credits): SpendPolicy.Candidate {
    var (weekly, short) := LongestAndShortest(s.limits);
    var remaining :=
      if weekly.None? then 0.0
      else if short.Some? then Min(100.0 - weekly.value.usedPercent, 100.0 - short.value.usedPercent)
      else 100.0 - weekly.value.usedPercent;
    SpendPolicy.Candidate(s.id, s.enabled, s.connected && s.authType == "chatgpt", weekly.Some?, remaining,
                          RouteUrgency(now, weekly, credits), s.observedAt)
  }

  /** The least left in any window reported. */
  ghost predicate LeastLeft(limits: Option<Limits>, left: real) {
    && (exists w :: Reported(limits, w) && left == 100.0 - w.usedPercent)
    && (forall w :: Reported(limits, w) ==> left <= 100.0 - w.usedPercent)
  }

  /** The candidate says of the account what the snapshot said. */
  ghost predicate MadeOf(c: SpendPolicy.Candidate, s: Snapshot) {
    && c.id == s.id && c.observedAt == s.observedAt && c.enabled == s.enabled
    && (c.connected <==> s.connected && s.authType == "chatgpt")
    && (c.known <==> exists w :: Reported(s.limits, w))
    && (c.known ==> LeastLeft(s.limits, c.remaining))
    && (!c.known ==> c.remaining == 0.0)
  }

  lemma CandidateIsMadeOf(now: int, s: Snapshot, credits: Credits)
    ensures MadeOf(CandidateOf(now, s, credits), s)
  {
    var (weekly, short) := LongestAndShortest(s.limits);
    WeeklyAndShort(s.limits);
    if weekly.Some? {
      assert Reported(s.limits, weekly.value) && Reported(s.limits, short.value);
    }
  }

  function CreditsOf(cache: map<string, (Credits, int)>, id: string, now: int): Credits {
    if id in cache && now < cache[id].1 then cache[id].0 else Credits(false, 0)
  }

  predicate BuiltFrom(candidates: seq<SpendPolicy.Candidate>, now: int, snapshots: seq<Snapshot>,
                      cache: map<string, (Credits, int)>)
  {
    && |candidates| == |snapshots|
    && forall i :: 0 <= i < |snapshots| ==>
         candidates[i] == CandidateOf(now, snapshots[i], CreditsOf(cache, snapshots[i].id, now))
  }

  /** The loop of spendCandidates; the cache maps an account to its reset credits and their expiry. */
  method BuildCandidates(now: int, snapshots: seq<Snapshot>, cache: map<string, (Credits, int)>)
    returns (candidates: seq<SpendPolicy.Candidate>)
    ensures BuiltFrom(candidates, now, snapshots, cache)
    ensures forall i :: 0 <= i < |snapshots| ==> MadeOf(candidates[i], snapshots[i])
  {
    candidates := [];
    for k := 0 to |snapshots|
      invariant BuiltFrom(candidates, now, snapshots[..k], cache)
    {
      candidates := candidates + [CandidateOf(now, snapshots[k], CreditsOf(cache, snapshots[k].id, now))];
    }
    assert snapshots[..|snapshots|] == snapshots;
    forall i | 0 <= i < |snapshots|
      ensures MadeOf(candidates[i], snapshots[i])
    {
      CandidateIsMadeOf(now, snapshots[i], CreditsOf(cache, snapshots[i].id, now));
    }
  }

  /** Whatever was built from a snapshot and may be charged has positive urgency, at any later time and mode. */
  lemma EligibleIsUrgent(built: int, s: Snapshot, credits: Credits, mode: string, now: int, maxAge: int)
    requires SpendPolicy.Eligible(CandidateOf(built, s, credits), mode, now, maxAge)
    ensures CandidateOf(built, s, credits).urgency > 0.0
  {
    var (weekly, short) := LongestAndShortest(s.limits);
    UrgencyIsPositive(built, weekly, credits);
  }

  // ---- choosing the account of a thread ----

  datatype Choice = NoCapacity | Chosen(id: string)

  predicate Usable(s: Snapshot, excluded: set<string>, enabledAccounts: set<string>) {
    var weekly := LongestAndShortest(s.limits).0;
    && s.id !in excluded && s.enabled && s.connected && s.authType == "chatgpt" && s.id in enabledAccounts
    && (weekly.Some? ==> weekly.value.usedPercent < 100.0)
  }

  /** The preferred account of a fixed routing mode is skipped while its short window is used up. */
  predicate Preferable(s: Snapshot) {
    var short := LongestAndShortest(s.limits).1;
    short.Some? ==> short.value.usedPercent < 100.0
  }

  predicate Selectable(s: Snapshot, preferred: Option<string>, excluded: set<string>, enabledAccounts: set<string>) {
    Usable(s, excluded, enabledAccounts) && (preferred == Some(s.id) ==> Preferable(s))
  }

  /**
    chooseAccountExcluding. preferred is the account of a fixed routing mode, if there is one. The ranking of the
    remaining candidates compares with tolerances and is not an order, so which of them comes first is left to
    the parameter first.
  */
  method ChooseAccountExcluding(snapshots: seq<Snapshot>, preferred: Option<string>, excluded: set<string>,
                                enabledAccounts: set<string>, first: nat)
    returns (choice: Choice)
    ensures choice.NoCapacity? <==> forall s :: s in snapshots ==> !Selectable(s, preferred, excluded, enabledAccounts)
    ensures choice.Chosen? ==>
              exists s :: s in snapshots && s.id == choice.id && Selectable(s, preferred, excluded, enabledAccounts)
    ensures (exists s :: s in snapshots && preferred == Some(s.id) &&
              Selectable(s, preferred, excluded, enabledAccounts))
            ==> choice == Chosen(preferred.value)
  {
    var candidates: seq<Snapshot> := [];
    for k := 0 to |snapshots|
      invariant forall s :: s in candidates <==>
                  s in snapshots[..k] && Selectable(s, preferred, excluded, enabledAccounts)
      invariant forall s :: s in candidates ==> preferred != Some(s.id)
    {
      var s := snapshots[k];
      assert snapshots[..k + 1] == snapshots[..k] + [s];
      if Usable(s, excluded, enabledAccounts) {
        if preferred == Some(s.id) {
          if Preferable(s) {
            assert s in snapshots && Selectable(s, preferred, excluded, enabledAccounts);
            return Chosen(s.id);
          }
        } else {
          candidates := candidates + [s];
        }
      }
    }
    assert snapshots[..|snapshots|] == snapshots;
    if candidates == [] {
      return NoCapacity;
    }
    assert candidates[first % |candidates|] in candidates;
    return Chosen(candidates[first % |candidates|].id);
  }
}
