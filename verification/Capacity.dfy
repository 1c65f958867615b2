/**
  Which snapshots make candidates that may be charged, how much they have left, and what their urgency depends on, in
  terms of the windows the account reported (internal/mux/spending.go, internal/mux/accounts.go).
*/
module Capacity {
  import opened Common
  import U = Urgency
  import P = SpendPolicy

  // ---- who may be charged ----

  /** The account has something left in every window it reported. */
  ghost predicate HasCapacity(limits: Option<U.Limits>) {
    && (exists w :: U.Reported(limits, w))
    && (forall w :: U.Reported(limits, w) ==> w.usedPercent < 100.0)
    && (exists w :: U.Reported(limits, w) && w.usedPercent >= 0.0)
  }

  /**
    A candidate built of a snapshot may be charged if and only if the account is enabled, connected to a subscription,
    has something left in every window it reported, was looked at recently, and is the one the mode names, if it names
    one. What it has left is the least over its windows.
  */
  lemma ChargeableExactly(candidates: seq<P.Candidate>, built: int, snapshots: seq<U.Snapshot>,
                          cache: map<string, (U.Credits, int)>, i: nat, mode: string, now: int, maxAge: int)
    requires U.BuiltFrom(candidates, built, snapshots, cache) && i < |snapshots|
    ensures var s, c := snapshots[i], candidates[i];
            && c.id == s.id
            && (c in P.EligibleOf(candidates, mode, now, maxAge) <==>
                 && s.enabled && s.connected && s.authType == "chatgpt" && HasCapacity(s.limits)
                 && now - maxAge <= s.observedAt <= now
                 && (mode == "" || mode == s.id))
            && (HasCapacity(s.limits) ==> U.LeastLeft(s.limits, c.remaining))
  {
    var s, c := snapshots[i], candidates[i];
    U.CandidateIsMadeOf(built, s, U.CreditsOf(cache, s.id, built));
    assert c in candidates;
    hide U.CandidateOf, P.EligibleOf;
    if exists w :: U.Reported(s.limits, w) {
      assert U.LeastLeft(s.limits, c.remaining);
      var w :| U.Reported(s.limits, w) && c.remaining == 100.0 - w.usedPercent;
      assert c.remaining > 0.0 <==> forall v :: U.Reported(s.limits, v) ==> v.usedPercent < 100.0;
      assert c.remaining <= 100.0 <==> exists v :: U.Reported(s.limits, v) && v.usedPercent >= 0.0;
    }
  }

  /** Who may carry a thread, in the same terms: reserved capacity is looked at only on the preferred account. */
  lemma SelectableExactly(s: U.Snapshot, preferred: Option<string>, excluded: set<string>, enabled: set<string>)
    ensures U.Selectable(s, preferred, excluded, enabled) <==>
              && s.id !in excluded && s.id in enabled && s.enabled && s.connected && s.authType == "chatgpt"
              && (forall w :: U.Weekly(s.limits, w) ==> w.usedPercent < 100.0)
              && (preferred == Some(s.id) ==> forall w :: U.Short(s.limits, w) ==> w.usedPercent < 100.0)
  {
    U.WeeklyAndShort(s.limits);
    hide U.Weekly, U.Short, U.Reported;
  }

  // ---- what urgency depends on ----

  const NANOSECONDS := 1_000_000_000

  /** The nanoseconds until the window is reset. */
  function UntilReset(now: int, w: U.Window): int {
    if w.resetsAt.Some? then w.resetsAt.value * NANOSECONDS - now else 0
  }

  /** The nanoseconds a window of known length lasts. */
  function Lasts(w: U.Window): int {
    U.Length(w) * 60 * NANOSECONDS
  }

  predicate Fits64(n: int) {
    -0x8000_0000_0000_0000 <= n <= 0x7fff_ffff_ffff_ffff
  }

  function AtLeastAMinute(n: int): int {
    if n < 60 * NANOSECONDS then 60 * NANOSECONDS else n
  }

  /**
    How long what is left must last: until the reset if that is still to come, else as long as the window, else a
    week, and never less than a minute. A time until the reset too long for 64 bits is cut off, a length too long
    wraps around.
  */
  predicate MustLast(now: int, w: U.Window, h: int) {
    if UntilReset(now, w) > 0 then
      h == AtLeastAMinute(if Fits64(UntilReset(now, w)) then UntilReset(now, w) else 0x7fff_ffff_ffff_ffff)
    else if U.Length(w) > 0 then
      if Fits64(Lasts(w)) then h == Lasts(w)
      else
        && Fits64(h) && h >= 60 * NANOSECONDS
        && (h == 60 * NANOSECONDS || (h - Lasts(w)) % 0x1_0000_0000_0000_0000 == 0)
    else h == 7 * 24 * 3600 * NANOSECONDS
  }

  lemma WrapKeeps(n: int)
    ensures Fits64(U.Wrap64(n)) && (U.Wrap64(n) - n) % 0x1_0000_0000_0000_0000 == 0
    ensures Fits64(n) ==> U.Wrap64(n) == n
  {
    var m := n + 0x8000_0000_0000_0000;
    var k := m / 0x1_0000_0000_0000_0000;
    assert m == k * 0x1_0000_0000_0000_0000 + m % 0x1_0000_0000_0000_0000;
    assert U.Wrap64(n) - n == -k * 0x1_0000_0000_0000_0000;
    Multiple(-k);
  }

  lemma Multiple(k: int)
    ensures k * 0x1_0000_0000_0000_0000 % 0x1_0000_0000_0000_0000 == 0
  {
  }

  lemma HorizonIsKnown(now: int, w: U.Window)
    ensures MustLast(now, w, U.Horizon(now, w))
  {
    WrapKeeps(Lasts(w));
    hide U.Wrap64;
  }

  /** The part of 100 percent that is left, however the percentage was reported. */
  function Left(w: U.Window): real {
    if w.usedPercent > 100.0 then 0.0 else if w.usedPercent < 0.0 then 100.0 else 100.0 - w.usedPercent
  }

  /** How many resets the account is known to be able to afford, of which three count. */
  function Resets(cache: map<string, (U.Credits, int)>, id: string, built: int): int {
    if id in cache && built < cache[id].1 && cache[id].0.known && cache[id].0.availableCount > 0 then
      if cache[id].0.availableCount > 3 then 3 else cache[id].0.availableCount
    else 0
  }

  /** Urgency is what is left for each hour it must last, and 15 percent more for each reset that counts. */
  predicate UrgencyFrom(urgency: real, left: real, h: int, resets: int)
    requires h > 0
  {
    urgency * h as real == left * 3600_000_000_000.0 * (1.0 + 0.15 * resets as real)
  }

  lemma Rate(left: real, h: real, hour: real, factor: real)
    requires h > 0.0 && hour > 0.0
    ensures left / (h / hour) * factor * h == left * hour * factor
  {
    var hours := h / hour;
    assert hours * hour == h && hours > 0.0;
    var rate := left / hours;
    assert rate * hours == left;
    assert rate * factor * h == rate * hours * hour * factor;
  }

  /**
    The urgency of a candidate: of its longest window it has what is left for each hour until it is needed again,
    raised by 15 percent for each of at most three resets known to be available. An account that reports no window has
    none.
  */
  lemma UrgencyExactly(candidates: seq<P.Candidate>, built: int, snapshots: seq<U.Snapshot>,
                       cache: map<string, (U.Credits, int)>, i: nat)
    requires U.BuiltFrom(candidates, built, snapshots, cache) && i < |snapshots|
    ensures var s, c := snapshots[i], candidates[i];
            && (forall w :: U.Weekly(s.limits, w) ==>
                  var h := U.Horizon(built, w);
                  MustLast(built, w, h) && UrgencyFrom(c.urgency, Left(w), h, Resets(cache, s.id, built)))
            && ((forall w :: !U.Reported(s.limits, w)) ==> c.urgency == -1.0)
  {
    var s := snapshots[i];
    var (weekly, short) := U.LongestAndShortest(s.limits);
    U.WeeklyAndShort(s.limits);
    var credits := U.CreditsOf(cache, s.id, built);
    if weekly.Some? {
      var w := weekly.value;
      HorizonIsKnown(built, w);
      CandidateUrgency(built, s, credits, Resets(cache, s.id, built));
    }
  }

  lemma CandidateUrgency(built: int, s: U.Snapshot, credits: U.Credits, resets: int)
    requires var weekly := U.LongestAndShortest(s.limits).0; weekly.Some?
    requires resets == Counted(credits)
    ensures var w := U.LongestAndShortest(s.limits).0.value;
            UrgencyFrom(U.CandidateOf(built, s, credits).urgency, Left(w), U.Horizon(built, w), resets)
  {
    var w := U.LongestAndShortest(s.limits).0.value;
    assert U.CandidateOf(built, s, credits).urgency == U.RouteUrgency(built, Some(w), credits);
    RateOf(built, w, credits);
    hide *;
    RateIs(U.RouteUrgency(built, Some(w), credits), Left(w), U.Horizon(built, w), resets);
  }

  function Counted(credits: U.Credits): int {
    if credits.known && credits.availableCount > 0 then
      if credits.availableCount > 3 then 3 else credits.availableCount
    else 0
  }

  lemma RateOf(built: int, w: U.Window, credits: U.Credits)
    ensures U.Horizon(built, w) > 0
    ensures U.RouteUrgency(built, Some(w), credits) ==
            Left(w) / (U.Horizon(built, w) as real / 3600_000_000_000.0) * (1.0 + 0.15 * Counted(credits) as real)
  {
    hide U.Horizon;
  }

  lemma RateIs(urgency: real, left: real, h: int, resets: int)
    requires h > 0
    requires urgency == left / (h as real / 3600_000_000_000.0) * (1.0 + 0.15 * resets as real)
    ensures UrgencyFrom(urgency, left, h, resets)
  {
    Rate(left, h as real, 3600_000_000_000.0, 1.0 + 0.15 * resets as real);
  }

  lemma Larger(u: real, v: real, h: real)
    requires h > 0.0
    ensures u * h >= v * h <==> u >= v
    ensures u * h > v * h <==> u > v
  {
  }

  lemma ProductsCompare(u: real, v: real, h: real, g: real, a: real, b: real)
    requires g >= h > 0.0 && u * h == a && v * g == b && a >= b >= 0.0
    ensures u >= v && (a > b ==> u > v)
  {
    Larger(v, 0.0, g);
    Larger(g, h, if v > 0.0 then v else 1.0);
    Larger(u, v, h);
    assert v * g >= v * h;
  }

  lemma LeftCompares(a: real, b: real, factor: real)
    requires a >= b >= 0.0 && factor > 0.0
    ensures a * factor >= b * factor >= 0.0 && (a > b ==> a * factor > b * factor)
  {
  }

  lemma RatesCompare(u: real, v: real, a: real, b: real, h: int, g: int, resets: int)
    requires g >= h > 0 && UrgencyFrom(u, a, h, resets) && UrgencyFrom(v, b, g, resets) && a >= b >= 0.0 && resets >= 0
    ensures u >= v && (a > b ==> u > v)
  {
    var factor := 3600_000_000_000.0 * (1.0 + 0.15 * resets as real);
    assert a * 3600_000_000_000.0 * (1.0 + 0.15 * resets as real) == a * factor;
    assert b * 3600_000_000_000.0 * (1.0 + 0.15 * resets as real) == b * factor;
    LeftCompares(a, b, factor);
    ProductsCompare(u, v, h as real, g as real, a * factor, b * factor);
  }

  lemma LaterLastsLonger(now: int, w: U.Window, v: U.Window)
    requires v.durationMins == w.durationMins
    requires v.resetsAt == w.resetsAt || (UntilReset(now, w) > 0 && UntilReset(now, v) >= UntilReset(now, w))
    ensures U.Horizon(now, v) >= U.Horizon(now, w)
  {
    hide U.Wrap64;
  }

  /**
    Of two samples of an account taken at one time, the one with more used, or the later reset, is no more urgent; with
    less left it is less urgent.
  */
  lemma UrgencyFalls(candidates: seq<P.Candidate>, others: seq<P.Candidate>, built: int, snapshots: seq<U.Snapshot>,
                     other: seq<U.Snapshot>, cache: map<string, (U.Credits, int)>, i: nat, w: U.Window, v: U.Window)
    requires U.BuiltFrom(candidates, built, snapshots, cache) && U.BuiltFrom(others, built, other, cache)
    requires i < |snapshots| && i < |other| && snapshots[i].id == other[i].id
    requires U.Weekly(snapshots[i].limits, w) && U.Weekly(other[i].limits, v)
    requires v.usedPercent >= w.usedPercent && v.durationMins == w.durationMins
    requires v.resetsAt == w.resetsAt || (UntilReset(built, w) > 0 && UntilReset(built, v) >= UntilReset(built, w))
    ensures others[i].urgency <= candidates[i].urgency
    ensures Left(v) < Left(w) ==> others[i].urgency < candidates[i].urgency
  {
    UrgencyExactly(candidates, built, snapshots, cache, i);
    UrgencyExactly(others, built, other, cache, i);
    LaterLastsLonger(built, w, v);
    hide U.BuiltFrom, U.Weekly, MustLast, U.Horizon, UrgencyFrom;
    RatesCompare(candidates[i].urgency, others[i].urgency, Left(w), Left(v), U.Horizon(built, w), U.Horizon(built, v),
      Resets(cache, snapshots[i].id, built));
  }
}
