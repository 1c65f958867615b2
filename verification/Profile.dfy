/**
  Merged usage statistics: the calendar part of aggregateProfileStatsAt, and mergedStreaks, of
  internal/mux/combined_profile.go. Token counts are unbounded.
*/
module Profile {
  import opened Common
  import Text

  datatype Bucket = Bucket(startDate: string, tokens: int)

  /**
    time.Parse and Format with the layout 2006-01-02. Days are numbered from 0001-01-01, the zero time, which was a
    Monday.
  */
  datatype Calendar = Calendar(parse: string -> Option<int>, format: int -> string)

  const FIRST_DAY := -366     // 0000-01-01
  const LAST_DAY := 3652058   // 9999-12-31

  ghost predicate Lawful(cal: Calendar) {
    && (forall s :: cal.parse(s).Some? ==> cal.format(cal.parse(s).value) == s)
    && (forall m, n :: cal.format(m) == cal.format(n) ==> m == n)
    && (forall n :: FIRST_DAY <= n <= LAST_DAY ==> cal.parse(cal.format(n)) == Some(n))
    && (forall a, b :: cal.parse(a).Some? && cal.parse(b).Some? ==>
          (Text.Less(a, b) <==> cal.parse(a).value < cal.parse(b).value))
  }

  // ---- totals by date ----

  function Total(buckets: seq<Bucket>): int {
    if buckets == [] then 0 else Total(buckets[..|buckets| - 1]) + buckets[|buckets| - 1].tokens
  }

  function TotalOn(buckets: seq<Bucket>, date: string): int {
    if buckets == [] then 0
    else
      var last := buckets[|buckets| - 1];
      TotalOn(buckets[..|buckets| - 1], date) + (if last.startDate == date then last.tokens else 0)
  }

  function DatesOf(buckets: seq<Bucket>): set<string> {
    set b | b in buckets :: b.startDate
  }

  lemma TotalOfConcat(a: seq<Bucket>, b: seq<Bucket>)
    ensures Total(a + b) == Total(a) + Total(b)
    decreases |b|
  {
    if b == [] {
      assert a + b == a;
    } else {
      assert (a + b)[..|a + b| - 1] == a + b[..|b| - 1];
      TotalOfConcat(a, b[..|b| - 1]);
    }
  }

  /** One bucket for each of the dates. */
  function Merged(buckets: seq<Bucket>, dates: seq<string>): (merged: seq<Bucket>)
    ensures |merged| == |dates|
    ensures forall i :: 0 <= i < |dates| ==> merged[i] == Bucket(dates[i], TotalOn(buckets, dates[i]))
  {
    seq(|dates|, i requires 0 <= i < |dates| => Bucket(dates[i], TotalOn(buckets, dates[i])))
  }

  ghost predicate Ascending(dates: seq<string>) {
    forall i, j :: 0 <= i < j < |dates| ==> Text.Less(dates[i], dates[j])
  }

  lemma {:induction false} MergedOfOneMore(buckets: seq<Bucket>, b: Bucket, dates: seq<string>)
    requires Ascending(dates)
    ensures Total(Merged(buckets + [b], dates)) == Total(Merged(buckets, dates)) +
              (if b.startDate in dates then b.tokens else 0)
  {
    assert (buckets + [b])[..|buckets|] == buckets;
    if dates != [] {
      var front, last := dates[..|dates| - 1], dates[|dates| - 1];
      MergedOfOneMore(buckets, b, front);
      assert dates == front + [last];
      assert Merged(buckets, dates)[..|front|] == Merged(buckets, front);
      assert Merged(buckets + [b], dates)[..|front|] == Merged(buckets + [b], front);
      if b.startDate == last && last in front {
        var i :| 0 <= i < |front| && front[i] == last;
        Text.LessIsIrreflexive(last);
      }
    }
  }

  /** Merging by date moves tokens together and loses none. */
  lemma {:induction false} MergingConserves(buckets: seq<Bucket>, dates: seq<string>)
    requires Ascending(dates) && forall b :: b in buckets ==> b.startDate in dates
    ensures Total(Merged(buckets, dates)) == Total(buckets)
  {
    if buckets == [] {
      NothingMerged(dates);
    } else {
      var front, last := buckets[..|buckets| - 1], buckets[|buckets| - 1];
      assert buckets == front + [last];
      MergingConserves(front, dates);
      MergedOfOneMore(front, last, dates);
    }
  }

  lemma {:induction false} NothingMerged(dates: seq<string>)
    ensures Total(Merged([], dates)) == 0
  {
    if dates != [] {
      NothingMerged(dates[..|dates| - 1]);
      assert Merged([], dates)[..|dates| - 1] == Merged([], dates[..|dates| - 1]);
    }
  }

  // ---- weeks ----

  function WeekStart(day: int): int {
    day - day % 7
  }

  /** The buckets of parsable days, filed under the Monday of their week. */
  function ByWeek(cal: Calendar, daily: seq<Bucket>): seq<Bucket> {
    if daily == [] then []
    else
      var last := daily[|daily| - 1];
      var parsed := cal.parse(last.startDate);
      ByWeek(cal, daily[..|daily| - 1]) +
      (if parsed.Some? then [Bucket(cal.format(WeekStart(parsed.value)), last.tokens)] else [])
  }

  function ParsableTotal(cal: Calendar, daily: seq<Bucket>): int {
    if daily == [] then 0
    else
      var last := daily[|daily| - 1];
      ParsableTotal(cal, daily[..|daily| - 1]) + (if cal.parse(last.startDate).Some? then last.tokens else 0)
  }

  lemma {:induction false} WeeksKeepParsable(cal: Calendar, daily: seq<Bucket>)
    ensures Total(ByWeek(cal, daily)) == ParsableTotal(cal, daily)
  {
    if daily != [] {
      var front := daily[..|daily| - 1];
      WeeksKeepParsable(cal, front);
      TotalOfConcat(ByWeek(cal, front), ByWeek(cal, daily)[|ByWeek(cal, front)|..]);
      assert ByWeek(cal, daily) == ByWeek(cal, front) + ByWeek(cal, daily)[|ByWeek(cal, front)|..];
    }
  }

  /** The tokens of one week's days. */
  function WeekTotal(cal: Calendar, daily: seq<Bucket>, monday: int): int {
    if daily == [] then 0
    else
      var last := daily[|daily| - 1];
      var parsed := cal.parse(last.startDate);
      WeekTotal(cal, daily[..|daily| - 1], monday) +
      (if parsed.Some? && monday <= parsed.value < monday + 7 then last.tokens else 0)
  }

  lemma TotalOnOneMore(buckets: seq<Bucket>, b: Bucket, date: string)
    ensures TotalOn(buckets + [b], date) == TotalOn(buckets, date) + (if b.startDate == date then b.tokens else 0)
  {
    assert (buckets + [b])[..|buckets|] == buckets;
  }

  lemma WeekContains(day: int, monday: int)
    requires monday % 7 == 0
    ensures WeekStart(day) == monday <==> monday <= day < monday + 7
  {
  }

  /** A week's bucket holds exactly the tokens of the seven days from its Monday. */
  lemma {:induction false} WeekBucketIsItsDays(cal: Calendar, daily: seq<Bucket>, monday: int)
    requires Lawful(cal) && monday % 7 == 0
    ensures TotalOn(ByWeek(cal, daily), cal.format(monday)) == WeekTotal(cal, daily, monday)
  {
    if daily != [] {
      var front, last := daily[..|daily| - 1], daily[|daily| - 1];
      WeekBucketIsItsDays(cal, front, monday);
      var parsed := cal.parse(last.startDate);
      if parsed.Some? {
        TotalOnOneMore(ByWeek(cal, front), Bucket(cal.format(WeekStart(parsed.value)), last.tokens),
          cal.format(monday));
        assert cal.format(WeekStart(parsed.value)) == cal.format(monday) <==> WeekStart(parsed.value) == monday;
        WeekContains(parsed.value, monday);
        assert ByWeek(cal, daily) == ByWeek(cal, front) + [Bucket(cal.format(WeekStart(parsed.value)), last.tokens)];
      } else {
        assert ByWeek(cal, daily) == ByWeek(cal, front);
      }
    }
  }

  // ---- the method ----

  datatype Usage = Usage(
    daily: seq<Bucket>, cumulative: seq<Bucket>, weekly: seq<Bucket>, peak: int, currentStreak: nat, longestStreak: nat)

  lemma LessElsewhere(a: string, b: string)
    requires a != b && !Text.Less(a, b)
    ensures Text.Less(b, a)
  {
    Text.LessIsTotal(a, b);
  }

  /** Collecting a map's keys in any order and sorting them: sort.Strings, here by insertion. */
  method SortedKeys(keys: set<string>) returns (sorted: seq<string>)
    ensures Ascending(sorted) && forall k :: k in sorted <==> k in keys
  {
    sorted := [];
    var unvisited := keys;
    while unvisited != {}
      invariant unvisited <= keys && Ascending(sorted)
      invariant forall k :: k in sorted <==> k in keys && k !in unvisited
      decreases |unvisited|
    {
      var key :| key in unvisited;
      unvisited := unvisited - {key};
      sorted := InsertKey(sorted, key);
    }
  }

  method InsertKey(sorted: seq<string>, key: string) returns (more: seq<string>)
    requires Ascending(sorted) && key !in sorted
    ensures Ascending(more) && forall k :: k in more <==> k in sorted || k == key
  {
    var at := 0;
    while at < |sorted| && Text.Less(sorted[at], key)
      invariant at <= |sorted| && forall i :: 0 <= i < at ==> Text.Less(sorted[i], key)
    {
      at := at + 1;
    }
    forall i | at <= i < |sorted|
      ensures Text.Less(key, sorted[i])
    {
      LessElsewhere(sorted[at], key);
      if at < i {
        Text.LessIsTransitive(key, sorted[at], sorted[i]);
      }
    }
    assert sorted == sorted[..at] + sorted[at..];
    more := sorted[..at] + [key] + sorted[at..];
  }

  function Flatten(profiles: seq<seq<Bucket>>): seq<Bucket> {
    if profiles == [] then [] else Flatten(profiles[..|profiles| - 1]) + profiles[|profiles| - 1]
  }

  /** A map that holds the totals of the buckets seen. */
  ghost predicate Tallies(tally: map<string, int>, buckets: seq<Bucket>) {
    tally.Keys == DatesOf(buckets) && forall d :: d in tally ==> tally[d] == TotalOn(buckets, d)
  }

  lemma TallyOneMore(tally: map<string, int>, buckets: seq<Bucket>, b: Bucket)
    requires Tallies(tally, buckets)
    ensures Tallies(tally[b.startDate := Load(tally, b.startDate) + b.tokens], buckets + [b])
  {
    var more := buckets + [b];
    assert DatesOf(more) == DatesOf(buckets) + {b.startDate} by {
      assert forall x :: x in more <==> x in buckets || x == b;
    }
    forall d | d in DatesOf(more)
      ensures TotalOn(more, d) == TotalOn(buckets, d) + (if b.startDate == d then b.tokens else 0)
    {
      TotalOnOneMore(buckets, b, d);
    }
    if b.startDate !in tally {
      NeverSeen(buckets, b.startDate);
    }
  }

  lemma {:induction false} NeverSeen(buckets: seq<Bucket>, date: string)
    requires date !in DatesOf(buckets)
    ensures TotalOn(buckets, date) == 0
  {
    if buckets != [] {
      assert buckets[|buckets| - 1] in buckets;
      assert forall b :: b in buckets[..|buckets| - 1] ==> b in buckets;
      NeverSeen(buckets[..|buckets| - 1], date);
    }
  }

  method Tally(buckets: seq<Bucket>, before: map<string, int>, ghost seen: seq<Bucket>)
    returns (tally: map<string, int>)
    requires Tallies(before, seen)
    ensures Tallies(tally, seen + buckets)
  {
    tally := before;
    assert seen + buckets[..0] == seen;
    for k := 0 to |buckets|
      invariant Tallies(tally, seen + buckets[..k])
    {
      var bucket := buckets[k];
      TallyOneMore(tally, seen + buckets[..k], bucket);
      assert seen + buckets[..k] + [bucket] == seen + buckets[..k + 1];
      tally := tally[bucket.startDate := Load(tally, bucket.startDate) + bucket.tokens];
    }
    assert buckets[..|buckets|] == buckets;
  }

  /** What the calendar part of the merged statistics says about the profiles' buckets. */
  ghost predicate Describes(u: Usage, cal: Calendar, all: seq<Bucket>, dates: seq<string>, weeks: seq<string>) {
    && Ascending(dates) && (forall d :: d in dates <==> d in DatesOf(all))
    && u.daily == Merged(all, dates)
    && |u.cumulative| == |dates|
    && (forall i :: 0 <= i < |dates| ==> u.cumulative[i] == Bucket(dates[i], Total(u.daily[..i + 1])))
    && Ascending(weeks) && (forall w :: w in weeks <==> w in DatesOf(ByWeek(cal, u.daily)))
    && u.weekly == Merged(ByWeek(cal, u.daily), weeks)
    && Peak(u.peak, u.daily)
  }

  /** The loop over the sorted dates. */
  method FoldDates(cal: Calendar, daily: map<string, int>, dates: seq<string>, ghost all: seq<Bucket>)
    returns (u: Usage, weekly: map<string, int>)
    requires Tallies(daily, all) && Ascending(dates) && forall d :: d in dates <==> d in daily
    ensures u.daily == Merged(all, dates) && Tallies(weekly, ByWeek(cal, u.daily))
    ensures |u.cumulative| == |dates|
    ensures forall i :: 0 <= i < |dates| ==> u.cumulative[i] == Bucket(dates[i], Total(u.daily[..i + 1]))
    ensures Peak(u.peak, u.daily)
  {
    hide Merged, Tallies, ByWeek, Accumulated, Peak, Ascending, Total;
    var buckets: seq<Bucket>, totals: seq<Bucket>, cumulative, peak := [], [], 0, 0;
    weekly := map[];
    NothingYet(cal, all, dates);
    for k := 0 to |dates|
      invariant buckets == Merged(all, dates[..k]) && cumulative == Total(buckets)
      invariant Accumulated(totals, buckets, dates, k)
      invariant Tallies(weekly, ByWeek(cal, buckets))
      invariant Peak(peak, buckets)
    {
      var date := dates[k];
      TallyIs(daily, all, dates, k);
      var tokens := daily[date];
      MergedOneMore(all, dates, k);
      AccumulatedOneMore(totals, buckets, dates, k, tokens);
      PeakOneMore(peak, buckets, Bucket(date, tokens));
      ByWeekOneMore(cal, buckets, Bucket(date, tokens));
      var parsed := cal.parse(date);
      if parsed.Some? {
        var week := cal.format(parsed.value - parsed.value % 7);
        TallyOneMore(weekly, ByWeek(cal, buckets), Bucket(week, tokens));
        weekly := weekly[week := Load(weekly, week) + tokens];
      }
      buckets := buckets + [Bucket(date, tokens)];
      cumulative := cumulative + tokens;
      totals := totals + [Bucket(date, cumulative)];
      if tokens > peak {
        peak := tokens;
      }
    }
    assert dates[..|dates|] == dates;
    AccumulatedIs(totals, buckets, dates);
    u := Usage(buckets, totals, [], peak, 0, 0);
  }

  ghost predicate Accumulated(totals: seq<Bucket>, buckets: seq<Bucket>, dates: seq<string>, k: nat) {
    && |totals| == |buckets| == k <= |dates|
    && forall i :: 0 <= i < k ==> totals[i] == Bucket(dates[i], Total(buckets[..i + 1]))
  }

  lemma AccumulatedIs(totals: seq<Bucket>, buckets: seq<Bucket>, dates: seq<string>)
    requires Accumulated(totals, buckets, dates, |dates|)
    ensures |totals| == |dates| == |buckets|
    ensures forall i :: 0 <= i < |dates| ==> totals[i] == Bucket(dates[i], Total(buckets[..i + 1]))
  {
  }

  ghost predicate Peak(peak: int, buckets: seq<Bucket>) {
    && peak >= 0 && (forall i :: 0 <= i < |buckets| ==> buckets[i].tokens <= peak)
    && (peak > 0 ==> exists i :: 0 <= i < |buckets| && buckets[i].tokens == peak)
  }

  lemma NothingYet(cal: Calendar, all: seq<Bucket>, dates: seq<string>)
    ensures Merged(all, dates[..0]) == [] && Tallies(map[], ByWeek(cal, []))
    ensures Accumulated([], [], dates, 0) && Peak(0, []) && Total([]) == 0
  {
  }

  lemma TallyIs(daily: map<string, int>, all: seq<Bucket>, dates: seq<string>, k: nat)
    requires Tallies(daily, all) && k < |dates| && forall d :: d in dates <==> d in daily
    ensures dates[k] in daily && daily[dates[k]] == TotalOn(all, dates[k])
  {
    assert dates[k] in dates;
  }

  lemma MergedOneMore(all: seq<Bucket>, dates: seq<string>, k: nat)
    requires k < |dates|
    ensures Merged(all, dates[..k + 1]) == Merged(all, dates[..k]) + [Bucket(dates[k], TotalOn(all, dates[k]))]
  {
  }

  lemma AccumulatedOneMore(totals: seq<Bucket>, buckets: seq<Bucket>, dates: seq<string>, k: nat, tokens: int)
    requires k < |dates| && Accumulated(totals, buckets, dates, k)
    ensures Total(buckets + [Bucket(dates[k], tokens)]) == Total(buckets) + tokens
    ensures Accumulated(totals + [Bucket(dates[k], Total(buckets) + tokens)], buckets + [Bucket(dates[k], tokens)],
              dates, k + 1)
  {
    var more := buckets + [Bucket(dates[k], tokens)];
    var totals' := totals + [Bucket(dates[k], Total(buckets) + tokens)];
    assert more[..k] == buckets && more[..k + 1] == more;
    forall i | 0 <= i < k + 1
      ensures totals'[i] == Bucket(dates[i], Total(more[..i + 1]))
    {
      if i < k {
        assert more[..i + 1] == buckets[..i + 1];
      }
    }
  }

  lemma PeakOneMore(peak: int, buckets: seq<Bucket>, b: Bucket)
    requires Peak(peak, buckets)
    ensures Peak(if b.tokens > peak then b.tokens else peak, buckets + [b])
  {
    var more := buckets + [b];
    if b.tokens > peak {
      assert more[|buckets|].tokens == b.tokens;
    } else if peak > 0 {
      var i :| 0 <= i < |buckets| && buckets[i].tokens == peak;
      assert more[i].tokens == peak;
    }
  }

  lemma ByWeekOneMore(cal: Calendar, buckets: seq<Bucket>, b: Bucket)
    ensures cal.parse(b.startDate).None? ==> ByWeek(cal, buckets + [b]) == ByWeek(cal, buckets)
    ensures cal.parse(b.startDate).Some? ==>
              ByWeek(cal, buckets + [b]) ==
              ByWeek(cal, buckets) + [Bucket(cal.format(WeekStart(cal.parse(b.startDate).value)), b.tokens)]
  {
    assert (buckets + [b])[..|buckets|] == buckets;
  }

  /** aggregateProfileStatsAt, as far as the calendar goes. */
  method AggregateUsage(cal: Calendar, profiles: seq<seq<Bucket>>, today: int)
    returns (u: Usage, dates: seq<string>, weeks: seq<string>)
    requires Lawful(cal)
    ensures Describes(u, cal, Flatten(profiles), dates, weeks)
    ensures IsCurrentStreak(cal, dates, today, u.currentStreak)
    ensures IsLongest(ActiveDays(cal, dates), u.longestStreak, true)
  {
    var daily: map<string, int> := map[];
    for p := 0 to |profiles|
      invariant Tallies(daily, Flatten(profiles[..p]))
    {
      assert profiles[..p + 1][..p] == profiles[..p];
      daily := Tally(profiles[p], daily, Flatten(profiles[..p]));
    }
    assert profiles[..|profiles|] == profiles;
    var days := SortedKeys(daily.Keys);
    var weekly;
    u, weekly := FoldDates(cal, daily, days, Flatten(profiles));
    var mondays := SortedKeys(weekly.Keys);
    var weeklyBuckets: seq<Bucket> := [];
    for k := 0 to |mondays|
      invariant weeklyBuckets == Merged(ByWeek(cal, u.daily), mondays[..k])
    {
      assert mondays[k] in weekly;
      weeklyBuckets := weeklyBuckets + [Bucket(mondays[k], weekly[mondays[k]])];
    }
    assert mondays[..|mondays|] == mondays;
    var current, longest := MergedStreaks(cal, days, today);
    u := u.(weekly := weeklyBuckets, currentStreak := current, longestStreak := longest);
    dates, weeks := days, mondays;
  }

  /** Conservation: no merging of calendars gains or loses a token, by day, cumulatively or by week. */
  lemma UsageIsConserved(u: Usage, cal: Calendar, all: seq<Bucket>, dates: seq<string>, weeks: seq<string>)
    requires Lawful(cal) && Describes(u, cal, all, dates, weeks)
    ensures Total(u.daily) == Total(all)
    ensures dates != [] ==> u.cumulative[|dates| - 1].tokens == Total(all)
    ensures Total(u.weekly) == ParsableTotal(cal, u.daily)
    ensures forall i :: 0 <= i < |weeks| ==>
              exists monday :: weeks[i] == cal.format(monday) && monday % 7 == 0 &&
                               u.weekly[i].tokens == WeekTotal(cal, u.daily, monday)
  {
    forall b | b in all
      ensures b.startDate in dates
    {
      assert b.startDate in DatesOf(all);
    }
    MergingConserves(all, dates);
    assert u.daily[..|dates|] == u.daily;
    forall b | b in ByWeek(cal, u.daily)
      ensures b.startDate in weeks
    {
      assert b.startDate in DatesOf(ByWeek(cal, u.daily));
    }
    MergingConserves(ByWeek(cal, u.daily), weeks);
    WeeksKeepParsable(cal, u.daily);
    forall i | 0 <= i < |weeks|
      ensures exists monday :: weeks[i] == cal.format(monday) && monday % 7 == 0 &&
                               u.weekly[i].tokens == WeekTotal(cal, u.daily, monday)
    {
      assert weeks[i] in DatesOf(ByWeek(cal, u.daily));
      var monday := MondayOf(cal, u.daily, weeks[i]);
      WeekBucketIsItsDays(cal, u.daily, monday);
    }
  }

  lemma {:induction false} MondayOf(cal: Calendar, daily: seq<Bucket>, week: string) returns (monday: int)
    requires week in DatesOf(ByWeek(cal, daily))
    ensures week == cal.format(monday) && monday % 7 == 0
  {
    var last := daily[|daily| - 1];
    var parsed := cal.parse(last.startDate);
    if parsed.Some? && week == cal.format(WeekStart(parsed.value)) {
      monday := WeekStart(parsed.value);
    } else {
      monday := MondayOf(cal, daily[..|daily| - 1], week);
    }
  }

  // ---- streaks ----

  function ActiveDays(cal: Calendar, dates: seq<string>): set<int> {
    set s | s in dates && cal.parse(s).Some? :: cal.parse(s).value
  }

  /** The zero time, day 0, is also the source's mark for "no previous day": its runs break after that day. */
  predicate Unbroken(first: int, length: nat) {
    !(first <= 0 && 1 < first + length)
  }

  predicate IsRun(days: set<int>, first: int, length: nat, broken: bool) {
    (forall d :: first <= d < first + length ==> d in days) && (broken ==> Unbroken(first, length))
  }

  /** The length of the longest run of consecutive days; with broken, of the runs not crossing from day 0 to day 1. */
  ghost predicate IsLongest(days: set<int>, length: nat, broken: bool) {
    && (exists first :: IsRun(days, first, length, broken))
    && (forall first, n: nat :: IsRun(days, first, n, broken) ==> n <= length)
  }

  /** Counting back from today, or from yesterday when today has no activity. */
  ghost predicate IsCurrentStreak(cal: Calendar, dates: seq<string>, today: int, current: nat) {
    var anchor := if cal.format(today) in dates then today else today - 1;
    (forall d :: anchor - current < d <= anchor ==> cal.format(d) in dates) && cal.format(anchor - current) !in dates
  }

  /** Where the loop of mergedStreaks stands: run is the longest unbroken run ending on the last day seen. */
  ghost predicate Running(days: set<int>, previous: int, run: nat, longest: nat) {
    && IsLongest(days, longest, true)
    && (days == {} ==> previous == 0 && run == 0 && longest == 0)
    && (days != {} ==>
          && previous in days && (forall d :: d in days ==> d <= previous)
          && run >= 1 && IsRun(days, previous - run + 1, run, true)
          && forall first, n: nat :: IsRun(days, first, n, true) && first + n == previous + 1 ==> n <= run)
  }

  lemma RunIsInhabited(days: set<int>, first: int, n: nat)
    requires IsRun(days, first, n, true) && n > 0
    ensures days != {}
  {
    assert first in days;
  }

  lemma NothingRunning()
    ensures Running({}, 0, 0, 0)
  {
    var none: set<int> := {};
    assert IsRun(none, 0, 0, true);
    forall first, n: nat | IsRun(none, first, n, true)
      ensures n <= 0
    {
      if n > 0 {
        RunIsInhabited(none, first, n);
      }
    }
  }

  /** The runs of one more, later day: the old ones, and those ending on it. */
  lemma RunsOfOneMore(days: set<int>, day: int, first: int, n: nat)
    requires forall d :: d in days ==> d < day
    requires IsRun(days + {day}, first, n, true) && n > 0
    ensures IsRun(days, first, n, true) || (first + n - 1 == day && IsRun(days, first, n - 1, true))
  {
    assert first + n - 1 in days + {day};
  }

  /** The runs ending on a new last day. */
  lemma RunsEndingOn(days: set<int>, previous: int, run: nat, longest: nat, day: int, first: int, n: nat)
    requires Running(days, previous, run, longest) && forall d :: d in days ==> d < day
    requires IsRun(days + {day}, first, n, true) && first + n == day + 1
    ensures n <= if previous != 0 && day == previous + 1 then run + 1 else 1
  {
    if n > 1 {
      RunsOfOneMore(days, day, first, n);
      assert IsRun(days, first, n - 1, true) by {
        assert Unbroken(first, n - 1);
      }
      assert day - 1 in days + {day};
      assert day - 1 == previous;
    }
  }

  lemma ExtendedRun(days: set<int>, previous: int, run: nat, longest: nat)
    requires Running(days, previous, run, longest) && previous != 0 && days != {}
    ensures IsRun(days + {previous + 1}, previous - run + 1, run + 1, true)
  {
    assert IsRun(days, previous - run + 1, run, true);
  }

  lemma NextDay(days: set<int>, previous: int, run: nat, longest: nat, day: int)
    requires Running(days, previous, run, longest) && forall d :: d in days ==> d < day
    ensures var run' := if previous != 0 && day == previous + 1 then run + 1 else 1;
            Running(days + {day}, day, run', if run' > longest then run' else longest)
  {
    var more := days + {day};
    var run' := if previous != 0 && day == previous + 1 then run + 1 else 1;
    var longest' := if run' > longest then run' else longest;
    if previous != 0 && day == previous + 1 {
      ExtendedRun(days, previous, run, longest);
    }
    assert IsRun(more, day - run' + 1, run', true);
    forall first, n: nat | IsRun(more, first, n, true) && first + n == day + 1
      ensures n <= run'
    {
      RunsEndingOn(days, previous, run, longest, day, first, n);
    }
    forall first, n: nat | IsRun(more, first, n, true)
      ensures n <= longest'
    {
      if n > 0 {
        RunsOfOneMore(days, day, first, n);
      }
    }
    var first :| IsRun(days, first, longest, true);
    assert IsRun(more, first, longest, true);
  }

  lemma ActiveOneMore(cal: Calendar, dates: seq<string>, k: nat)
    requires Lawful(cal) && Ascending(dates) && k < |dates|
    ensures var more := ActiveDays(cal, dates[..k + 1]);
            if cal.parse(dates[k]).None? then more == ActiveDays(cal, dates[..k])
            else more == ActiveDays(cal, dates[..k]) + {cal.parse(dates[k]).value} &&
                 forall d :: d in ActiveDays(cal, dates[..k]) ==> d < cal.parse(dates[k]).value
  {
    assert dates[..k + 1] == dates[..k] + [dates[k]];
    forall d | d in ActiveDays(cal, dates[..k]) && cal.parse(dates[k]).Some?
      ensures d < cal.parse(dates[k]).value
    {
      var s :| s in dates[..k] && cal.parse(s).Some? && cal.parse(s).value == d;
      var i :| 0 <= i < k && dates[i] == s;
      assert Text.Less(dates[i], dates[k]);
    }
  }

  method MergedStreaks(cal: Calendar, dates: seq<string>, today: int) returns (current: nat, longest: nat)
    requires Lawful(cal) && Ascending(dates)
    ensures IsCurrentStreak(cal, dates, today, current)
    ensures IsLongest(ActiveDays(cal, dates), longest, true)
  {
    hide Running, Lawful, IsLongest, ActiveDays;
    var active := set s | s in dates;
    var run: nat, previous := 0, 0;
    longest := 0;
    NothingRunning();
    NoActiveDays(cal, dates[..0]);
    for k := 0 to |dates|
      invariant Running(ActiveDays(cal, dates[..k]), previous, run, longest)
    {
      ActiveOneMore(cal, dates, k);
      var parsed := cal.parse(dates[k]);
      if parsed.None? {
        continue;
      }
      var date := parsed.value;
      NextDay(ActiveDays(cal, dates[..k]), previous, run, longest, date);
      if previous != 0 && date - previous == 1 {
        run := run + 1;
      } else {
        run := 1;
      }
      if run > longest {
        longest := run;
      }
      previous := date;
    }
    assert dates[..|dates|] == dates;
    RunningIsLongest(ActiveDays(cal, dates), previous, run, longest);
    current := CurrentStreak(cal, dates, active, today);
  }

  lemma NoActiveDays(cal: Calendar, dates: seq<string>)
    requires dates == []
    ensures ActiveDays(cal, dates) == {}
  {
  }

  lemma RunningIsLongest(days: set<int>, previous: int, run: nat, longest: nat)
    requires Running(days, previous, run, longest)
    ensures IsLongest(days, longest, true)
  {
  }

  method CurrentStreak(cal: Calendar, dates: seq<string>, active: set<string>, today: int) returns (current: nat)
    requires Lawful(cal) && forall s :: s in active <==> s in dates
    ensures IsCurrentStreak(cal, dates, today, current)
  {
    var anchor := today;
    if cal.format(anchor) !in active {
      anchor := anchor - 1;
    }
    ghost var first, uncounted := anchor, active;
    current := 0;
    while cal.format(anchor) in active
      invariant anchor == first - current
      invariant forall d :: anchor < d <= first ==> cal.format(d) in dates
      invariant uncounted <= active
      invariant forall s :: s in active && s !in uncounted ==> exists d :: anchor < d <= first && s == cal.format(d)
      decreases |uncounted|
    {
      assert cal.format(anchor) in uncounted;
      uncounted := uncounted - {cal.format(anchor)};
      current := current + 1;
      anchor := anchor - 1;
    }
  }

  // ---- when the streaks are right ----

  /** The active days from lo to hi, with no active day next to them. */
  predicate Block(days: set<int>, lo: int, hi: int) {
    lo <= hi && (forall d :: lo <= d <= hi ==> d in days) && lo - 1 !in days && hi + 1 !in days
  }

  /** From first on, apart from the days lo to hi, there are n consecutive active days. */
  predicate RunApart(days: set<int>, lo: int, hi: int, first: int, n: nat) {
    (first > hi || first + n <= lo) && forall d :: first <= d < first + n ==> d in days
  }

  ghost predicate AsLongElsewhere(days: set<int>, lo: int, hi: int, n: nat) {
    exists first :: RunApart(days, lo, hi, first, n)
  }

  /** The block through the first two days of year one is longer than any other. */
  ghost predicate YearOneIsLongest(days: set<int>) {
    exists lo, hi :: Block(days, lo, hi) && lo <= 0 && 1 <= hi && !AsLongElsewhere(days, lo, hi, hi - lo + 1)
  }

  lemma BlockAround(days: set<int>, d: int) returns (lo: int, hi: int)
    requires d in days
    ensures Block(days, lo, hi) && lo <= d <= hi
  {
    lo, hi := d, d;
    while hi + 1 in days
      invariant d <= hi && forall x :: d <= x <= hi ==> x in days
      decreases |set x | x in days && x > hi|
    {
      assert (set x | x in days && x > hi) == (set x | x in days && x > hi + 1) + {hi + 1};
      hi := hi + 1;
    }
    while lo - 1 in days
      invariant lo <= d && forall x :: lo <= x <= hi ==> x in days
      decreases |set x | x in days && x < lo|
    {
      assert (set x | x in days && x < lo) == (set x | x in days && x < lo - 1) + {lo - 1};
      lo := lo - 1;
    }
  }

  /** A run that meets days with no active day next to them lies within them. */
  lemma {:induction false} RunStaysInside(days: set<int>, lo: int, hi: int, first: int, n: nat)
    requires lo - 1 !in days && hi + 1 !in days && forall d :: first <= d < first + n ==> d in days
    requires first <= hi && lo < first + n
    ensures lo <= first && first + n <= hi + 1
  {
  }

  lemma ApartIsUnbroken(days: set<int>, lo: int, hi: int, first: int, n: nat)
    requires RunApart(days, lo, hi, first, n) && lo <= 0 && 1 <= hi
    ensures IsRun(days, first, n, true)
  {
  }

  lemma LongestIsARun(days: set<int>, longest: nat) returns (first: int)
    requires IsLongest(days, longest, true)
    ensures IsRun(days, first, longest, true)
  {
    first :| IsRun(days, first, longest, true);
  }

  lemma RunIsBounded(days: set<int>, longest: nat, first: int, n: nat)
    requires IsLongest(days, longest, true) && IsRun(days, first, n, true)
    ensures n <= longest
  {
  }

  /** A run as long as the block through the first two days of year one lies elsewhere, or crosses between them. */
  lemma LongestHidesTheBlock(days: set<int>, longest: nat, lo: int, hi: int)
    requires IsLongest(days, longest, true) && Block(days, lo, hi) && lo <= 0 && 1 <= hi
    ensures longest >= hi - lo + 1 <==> AsLongElsewhere(days, lo, hi, hi - lo + 1)
  {
    var n := hi - lo + 1;
    if AsLongElsewhere(days, lo, hi, n) {
      var other :| RunApart(days, lo, hi, other, n);
      ApartIsUnbroken(days, lo, hi, other, n);
      RunIsBounded(days, longest, other, n);
    }
    if longest >= n {
      var first := LongestIsARun(days, longest);
      assert IsRun(days, first, n, true);
      assert RunApart(days, lo, hi, first, n);
    }
  }

  /**
    The reported longest streak is the longest there is if and only if the block of active days through the first two
    days of year one, if there is one, is matched by another.
  */
  lemma LongestIsLongest(days: set<int>, longest: nat)
    requires IsLongest(days, longest, true)
    ensures IsLongest(days, longest, false) <==> !YearOneIsLongest(days)
    ensures !(0 in days && 1 in days) ==> IsLongest(days, longest, false)
  {
    var first := LongestIsARun(days, longest);
    assert IsRun(days, first, longest, false);
    if YearOneIsLongest(days) {
      var lo, hi :| Block(days, lo, hi) && lo <= 0 && 1 <= hi && !AsLongElsewhere(days, lo, hi, hi - lo + 1);
      LongestHidesTheBlock(days, longest, lo, hi);
      assert IsRun(days, lo, hi - lo + 1, false);
    } else {
      forall f, n: nat | IsRun(days, f, n, false)
        ensures n <= longest
      {
        if Unbroken(f, n) {
          assert IsRun(days, f, n, true);
        } else {
          assert 0 in days && 1 in days;
          var lo, hi := BlockAround(days, 0);
          LongestHidesTheBlock(days, longest, lo, hi);
          RunStaysInside(days, lo, hi, f, n);
        }
      }
    }
  }

  /** The day the current streak counts back from. */
  function Anchor(cal: Calendar, dates: seq<string>, today: int): int {
    if cal.format(today) in dates then today else today - 1
  }

  /** The dates from start to the anchor are there, and the one before is not. */
  ghost predicate StreakFrom(cal: Calendar, dates: seq<string>, today: int, start: int) {
    && start <= Anchor(cal, dates, today) + 1 && cal.format(start - 1) !in dates
    && forall d :: start <= d <= Anchor(cal, dates, today) ==> cal.format(d) in dates
  }

  /** The active days go on after the anchor up to last. */
  predicate GoesOnTo(days: set<int>, anchor: int, last: int) {
    anchor <= last && last + 1 !in days && forall d :: anchor < d <= last ==> d in days
  }

  lemma DatedDays(cal: Calendar, dates: seq<string>)
    requires Lawful(cal)
    ensures forall d :: FIRST_DAY <= d <= LAST_DAY && cal.format(d) in dates ==> d in ActiveDays(cal, dates)
    ensures forall d :: d in ActiveDays(cal, dates) ==> cal.format(d) in dates
  {
    forall d | FIRST_DAY <= d <= LAST_DAY && cal.format(d) in dates
      ensures d in ActiveDays(cal, dates)
    {
      assert cal.parse(cal.format(d)) == Some(d);
    }
  }

  lemma CurrentIsCounted(cal: Calendar, dates: seq<string>, today: int, start: int, current: nat)
    requires IsCurrentStreak(cal, dates, today, current) && StreakFrom(cal, dates, today, start)
    ensures current == Anchor(cal, dates, today) - start + 1
  {
    var anchor := Anchor(cal, dates, today);
    assert anchor - current < start - 1 ==> cal.format(start - 1) in dates;
    assert anchor - current > start - 1 ==> cal.format(anchor - current) in dates;
  }

  /**
    The current streak is at most the longest if and only if it starts after day 0, or is made up for after today by as
    many days as it has up to day 0, or is matched by another run.
  */
  lemma CurrentAtMostLongest(cal: Calendar, dates: seq<string>, today: int, start: int, last: int, current: nat,
                             longest: nat)
    requires Lawful(cal) && 1 < today <= LAST_DAY
    requires IsCurrentStreak(cal, dates, today, current) && IsLongest(ActiveDays(cal, dates), longest, true)
    requires StreakFrom(cal, dates, today, start) && GoesOnTo(ActiveDays(cal, dates), Anchor(cal, dates, today), last)
    ensures var anchor := Anchor(cal, dates, today);
            && current == anchor - start + 1
            && (current <= longest <==>
                 || start >= 1
                 || last - anchor >= 1 - start
                 || AsLongElsewhere(ActiveDays(cal, dates), start, last, anchor - start + 1))
    ensures !(cal.format(0) in dates && cal.format(1) in dates) ==> current <= longest
  {
    var days, anchor := ActiveDays(cal, dates), Anchor(cal, dates, today);
    CurrentIsCounted(cal, dates, today, start, current);
    DatedDays(cal, dates);
    var n := anchor - start + 1;
    hide Lawful, ActiveDays, IsCurrentStreak, IsLongest;
    assert start <= 0 ==> cal.format(0) in dates && cal.format(1) in dates;
    if start >= 1 {
      assert IsRun(days, start, n, true);
      RunIsBounded(days, longest, start, n);
    } else {
      if last - anchor >= 1 - start {
        assert IsRun(days, 1, last, true);
        RunIsBounded(days, longest, 1, last);
      }
      if AsLongElsewhere(days, start, last, n) {
        var other :| RunApart(days, start, last, other, n);
        ApartIsUnbroken(days, start, last, other, n);
        RunIsBounded(days, longest, other, n);
      }
      if n <= longest {
        var first := LongestIsARun(days, longest);
        assert IsRun(days, first, n, true);
        if first <= last && start < first + n {
          RunStaysInside(days, start, last, first, n);
        } else {
          assert RunApart(days, start, last, first, n);
        }
      }
    }
  }

  /** Both promises fail on one unbroken stretch of days, through the first two of year one, that ends today. */
  lemma OneStretchFails(cal: Calendar, dates: seq<string>, first: int, today: int, current: nat, longest: nat)
    requires Lawful(cal) && FIRST_DAY <= first <= 0 && 1 < today <= LAST_DAY
    requires forall s :: s in dates <==> exists d :: first <= d <= today && s == cal.format(d)
    requires IsCurrentStreak(cal, dates, today, current) && IsLongest(ActiveDays(cal, dates), longest, true)
    ensures current == today - first + 1 > longest && !IsLongest(ActiveDays(cal, dates), longest, false)
  {
    var days := ActiveDays(cal, dates);
    DatedDays(cal, dates);
    OnlyTheseDays(cal, dates, first, today);
    hide Lawful, ActiveDays, IsCurrentStreak, IsLongest;
    NothingApart(days, first, today);
    CurrentAtMostLongest(cal, dates, today, first, today, current, longest);
    LongestIsLongest(days, longest);
    assert Block(days, first, today);
  }

  lemma NothingApart(days: set<int>, first: int, today: int)
    requires first <= today && forall d :: d in days ==> first <= d <= today
    ensures !AsLongElsewhere(days, first, today, today - first + 1)
  {
    var n := today - first + 1;
    forall other
      ensures !RunApart(days, first, today, other, n)
    {
      assert other !in days || other <= today;
      assert other + n - 1 !in days || other + n - 1 >= first;
    }
  }

  lemma OnlyTheseDays(cal: Calendar, dates: seq<string>, first: int, today: int)
    requires Lawful(cal) && forall s :: s in dates <==> exists d :: first <= d <= today && s == cal.format(d)
    ensures forall d :: cal.format(d) in dates <==> first <= d <= today
    ensures forall d :: d in ActiveDays(cal, dates) ==> first <= d <= today
  {
    forall d | d in ActiveDays(cal, dates)
      ensures first <= d <= today
    {
      assert cal.format(d) in dates;
    }
  }

  lemma TwoDates(cal: Calendar, first: string, second: string)
    requires Lawful(cal) && cal.parse(first) == Some(0) && cal.parse(second) == Some(1)
    ensures ActiveDays(cal, [first, second]) == {0, 1} && StreakFrom(cal, [first, second], 1, 0)
    ensures Anchor(cal, [first, second], 1) == 1
  {
    var dates := [first, second];
    assert dates[0] in dates && dates[1] in dates;
    assert cal.format(0) == first && cal.format(1) == second;
    assert cal.format(-1) in dates ==> cal.format(-1) == cal.format(0) || cal.format(-1) == cal.format(1);
  }

  /** The two dates on which the longest streak is reported as one day and the current one, on the second, as two. */
  lemma YearOneIsMiscounted(cal: Calendar, longest: nat, current: nat)
    requires Lawful(cal) && cal.parse("0001-01-01") == Some(0) && cal.parse("0001-01-02") == Some(1)
    requires IsLongest(ActiveDays(cal, ["0001-01-01", "0001-01-02"]), longest, true)
    requires IsCurrentStreak(cal, ["0001-01-01", "0001-01-02"], 1, current)
    ensures longest == 1 && IsLongest(ActiveDays(cal, ["0001-01-01", "0001-01-02"]), 2, false) && current == 2
  {
    var dates := ["0001-01-01", "0001-01-02"];
    var days := ActiveDays(cal, dates);
    TwoDates(cal, dates[0], dates[1]);
    hide Lawful, ActiveDays, StreakFrom;
    CurrentIsCounted(cal, dates, 1, 0, current);
    assert IsRun(days, 0, 1, true) && IsRun(days, 0, 2, false);
    var first := LongestIsARun(days, longest);
    assert longest >= 2 ==> first in days && first + 1 in days;
    forall f, n: nat | IsRun(days, f, n, false)
      ensures n <= 2
    {
      assert n > 2 ==> f in days && f + 1 in days && f + 2 in days;
    }
  }
}
