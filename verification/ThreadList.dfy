/**
  Merging the accounts' thread lists: internal/mux/thread_list.go, and sortThreads of internal/mux/mux.go.
  Ranging over a Go map visits the keys in an arbitrary order, so the method picks an arbitrary key each time.
*/
module ThreadList {
  import opened Common
  import Text

  /** A thread as reported: body stands for the fields the router does not look at. An empty id is no id. */
  datatype Thread = Thread(id: string, updatedAt: Option<real>, createdAt: Option<real>, body: string)

  datatype Report = Report(index: nat, accountId: string, threads: seq<Thread>)

  datatype Candidate = Candidate(accountId: string, accountIndex: nat, thread: Thread)

  /** numericField(thread, "updatedAt", "createdAt") */
  function Time(t: Thread): real {
    if t.updatedAt.Some? then t.updatedAt.value else if t.createdAt.Some? then t.createdAt.value else 0.0
  }

  // ---- what was reported ----

  function Offered(r: Report): seq<Candidate> {
    seq(|r.threads|, i requires 0 <= i < |r.threads| => Candidate(r.accountId, r.index, r.threads[i]))
  }

  function Flatten(reports: seq<Report>): seq<Candidate> {
    if reports == [] then [] else Flatten(reports[..|reports| - 1]) + Offered(reports[|reports| - 1])
  }

  /** The candidates for one thread, in the order they were reported; the empty id collects the anonymous ones. */
  function Of(all: seq<Candidate>, id: string): (s: seq<Candidate>)
    ensures forall c :: c in s <==> c in all && c.thread.id == id
  {
    if all == [] then []
    else
      var last := all[|all| - 1];
      Of(all[..|all| - 1], id) + (if last.thread.id == id then [last] else [])
  }

  function ThreadsOf(s: seq<Candidate>): (threads: seq<Thread>)
    ensures |threads| == |s| && forall i :: 0 <= i < |s| ==> threads[i] == s[i].thread
  {
    seq(|s|, i requires 0 <= i < |s| => s[i].thread)
  }

  /** The named threads, in the order they were first reported. */
  function NamedIds(all: seq<Candidate>): (ids: seq<string>)
    ensures forall id :: id in ids <==> id != "" && exists c :: c in all && c.thread.id == id
    ensures forall i, j :: 0 <= i < j < |ids| ==> ids[i] != ids[j]
  {
    if all == [] then []
    else
      var before, id := NamedIds(all[..|all| - 1]), all[|all| - 1].thread.id;
      if id == "" || id in before then before else before + [id]
  }

  // ---- choosing among the candidates for one thread ----

  predicate Beats(a: Candidate, b: Candidate) {
    Time(a.thread) > Time(b.thread) || (Time(a.thread) == Time(b.thread) && a.accountIndex < b.accountIndex)
  }

  function Newest(s: seq<Candidate>): (c: Candidate)
    requires s != []
    ensures c in s
  {
    if |s| == 1 then s[0]
    else
      var c, last := Newest(s[..|s| - 1]), s[|s| - 1];
      if Beats(last, c) then last else c
  }

  function FirstFrom(s: seq<Candidate>, account: string): (c: Option<Candidate>)
    ensures c.Some? <==> exists d :: d in s && d.accountId == account
    ensures c.Some? ==> c.value in s && c.value.accountId == account
  {
    if s == [] then None else if s[0].accountId == account then Some(s[0]) else FirstFrom(s[1..], account)
  }

  function Select(s: seq<Candidate>, persisted: Option<string>): (c: Candidate)
    requires s != []
    ensures c in s
  {
    if persisted.Some? && FirstFrom(s, persisted.value).Some? then FirstFrom(s, persisted.value).value else Newest(s)
  }

  lemma {:induction false} NewestIsUnbeaten(s: seq<Candidate>)
    requires s != []
    ensures forall c :: c in s ==> !Beats(c, Newest(s))
  {
    if |s| > 1 {
      NewestIsUnbeaten(s[..|s| - 1]);
      assert s == s[..|s| - 1] + [s[|s| - 1]];
    }
  }

  /** The owner is an account that reported the thread; the persisted one if it still does, else the newest's. */
  lemma SelectionIsSound(s: seq<Candidate>, persisted: Option<string>)
    requires s != []
    ensures var c := Select(s, persisted);
            && c in s
            && (persisted.Some? && (exists d :: d in s && d.accountId == persisted.value) ==>
                 c.accountId == persisted.value)
            && (persisted.None? || (forall d :: d in s ==> d.accountId != persisted.value) ==>
                  forall d :: d in s ==> !Beats(d, c))
  {
    NewestIsUnbeaten(s);
  }

  function Lookup(owners: map<string, string>, id: string): Option<string> {
    if id in owners then Some(owners[id]) else None
  }

  function Chosen(all: seq<Candidate>, persisted: map<string, string>, id: string): (c: Candidate)
    requires Of(all, id) != []
    ensures c in all && c.thread.id == id
  {
    Select(Of(all, id), Lookup(persisted, id))
  }

  lemma NamedIsOffered(all: seq<Candidate>, id: string)
    requires exists c :: c in all && c.thread.id == id
    ensures Of(all, id) != []
  {
    var c :| c in all && c.thread.id == id;
    assert c in Of(all, id);
  }

  // ---- sorting ----

  /** The comparator of sortThreads. */
  predicate Before(a: Thread, b: Thread) {
    Time(a) > Time(b) || (Time(a) == Time(b) && Text.Less(a.id, b.id))
  }

  lemma BeforeIsTransitive(a: Thread, b: Thread, c: Thread)
    requires Before(a, b) && Before(b, c)
    ensures Before(a, c)
  {
    if Text.Less(a.id, b.id) && Text.Less(b.id, c.id) {
      Text.LessIsTransitive(a.id, b.id, c.id);
    }
  }

  lemma BeforeIsTotal(a: Thread, b: Thread)
    ensures a.id != b.id ==> Before(a, b) || Before(b, a)
    ensures !(Before(a, b) && Before(b, a))
  {
    Text.LessIsTotal(a.id, b.id);
  }

  /** Putting x after everything it does not come before: what keeps a sort stable. */
  function Insert(s: seq<Thread>, x: Thread): (t: seq<Thread>)
    ensures |t| == |s| + 1
    ensures forall y :: y in t <==> y in s || y == x
  {
    if s == [] then [x]
    else if Before(x, s[|s| - 1]) then Insert(s[..|s| - 1], x) + [s[|s| - 1]]
    else s + [x]
  }

  function InsertAll(s: seq<Thread>, more: seq<Thread>): seq<Thread> {
    if more == [] then s else Insert(InsertAll(s, more[..|more| - 1]), more[|more| - 1])
  }

  function Sort(s: seq<Thread>): seq<Thread> {
    InsertAll([], s)
  }

  lemma {:induction false} SortInTwo(s: seq<Thread>, first: seq<Thread>, second: seq<Thread>)
    ensures InsertAll(s, first + second) == InsertAll(InsertAll(s, first), second)
  {
    if second == [] {
      assert first + second == first;
    } else {
      assert (first + second)[..|first + second| - 1] == first + second[..|second| - 1];
      SortInTwo(s, first, second[..|second| - 1]);
    }
  }

  ghost predicate Sorted(s: seq<Thread>) {
    forall i, j :: 0 <= i < j < |s| ==> !Before(s[j], s[i])
  }

  ghost predicate StrictlySorted(s: seq<Thread>) {
    forall i, j :: 0 <= i < j < |s| ==> Before(s[i], s[j])
  }

  /** No two of the threads compare equal. */
  ghost predicate Distinct(s: seq<Thread>) {
    forall i, j :: 0 <= i < j < |s| ==> s[i].id != s[j].id
  }

  lemma {:induction false} InsertKeepsStrict(s: seq<Thread>, x: Thread)
    requires StrictlySorted(s) && forall y :: y in s ==> y.id != x.id
    ensures StrictlySorted(Insert(s, x))
  {
    if s != [] {
      var front, last := s[..|s| - 1], s[|s| - 1];
      BeforeIsTotal(x, last);
      if Before(x, last) {
        InsertKeepsStrict(front, x);
        forall i | 0 <= i < |Insert(front, x)|
          ensures Before(Insert(front, x)[i], last)
        {
          assert Insert(front, x)[i] in Insert(front, x);
        }
      } else {
        forall i | 0 <= i < |s|
          ensures Before(s[i], x)
        {
          if i < |s| - 1 {
            BeforeIsTransitive(s[i], last, x);
          }
        }
      }
    }
  }

  lemma {:induction false} SortIsStrict(s: seq<Thread>)
    requires Distinct(s)
    ensures StrictlySorted(Sort(s)) && forall y :: y in Sort(s) <==> y in s
  {
    if s != [] {
      var front, last := s[..|s| - 1], s[|s| - 1];
      SortIsStrict(front);
      assert s == front + [last];
      InsertKeepsStrict(Sort(front), last);
    }
  }

  lemma SomethingIn(s: seq<Thread>)
    requires s != []
    ensures exists y :: y in s
  {
    assert s[0] in s;
  }

  /** There is one strictly sorted arrangement of a set of threads. */
  lemma {:induction false} StrictlySortedIsUnique(s: seq<Thread>, t: seq<Thread>)
    requires StrictlySorted(s) && StrictlySorted(t) && forall y :: y in s <==> y in t
    ensures s == t
  {
    if s == [] {
      if t != [] {
        SomethingIn(t);
      }
    } else {
      assert s[0] in t && t != [];
      assert t[0] in s;
      var i :| 0 <= i < |t| && t[i] == s[0];
      var j :| 0 <= j < |s| && s[j] == t[0];
      BeforeIsTotal(s[0], t[0]);
      assert s[0] == t[0];
      forall y
        ensures y in s[1..] <==> y in t[1..]
      {
        TailWithout(s, y);
        TailWithout(t, y);
      }
      StrictlySortedIsUnique(s[1..], t[1..]);
    }
  }

  lemma TailWithout(s: seq<Thread>, y: Thread)
    requires s != [] && StrictlySorted(s)
    ensures y in s[1..] <==> y in s && y != s[0]
  {
    BeforeIsTotal(s[0], s[0]);
    assert s == [s[0]] + s[1..];
  }

  // ---- the merge ----

  function ChosenThreads(all: seq<Candidate>, persisted: map<string, string>,
                         order: seq<string>): (threads: seq<Thread>)
    requires forall id :: id in order ==> Of(all, id) != []
    ensures |threads| == |order| && forall i :: 0 <= i < |order| ==>
              threads[i] == Chosen(all, persisted, order[i]).thread
  {
    seq(|order|, i requires 0 <= i < |order| => assert order[i] in order; Chosen(all, persisted, order[i]).thread)
  }

  ghost predicate AnOrderOf(order: seq<string>, ids: set<string>) {
    (forall id :: id in order <==> id in ids) && forall i, j :: 0 <= i < j < |order| ==> order[i] != order[j]
  }

  function Names(all: seq<Candidate>): (ids: set<string>)
    ensures forall id :: id in ids ==> Of(all, id) != []
  {
    var ids := set id | id in NamedIds(all);
    assert forall id :: id in ids ==> Of(all, id) != [] by {
      forall id | id in ids
        ensures Of(all, id) != []
      {
        NamedIsOffered(all, id);
      }
    }
    ids
  }

  /** The list that comes of merging, computed in the order in which the names were first reported. */
  function Merged(reports: seq<Report>, persisted: map<string, string>): seq<Thread> {
    var all := Flatten(reports);
    assert forall id :: id in NamedIds(all) ==> id in Names(all);
    Sort(ChosenThreads(all, persisted, NamedIds(all)) + ThreadsOf(Of(all, "")))
  }

  function Owners(reports: seq<Report>, persisted: map<string, string>): map<string, string> {
    var all := Flatten(reports);
    map id | id in Names(all) :: Chosen(all, persisted, id).accountId
  }

  /** Whatever order the names are visited in, sorting gives the same list. */
  lemma MergeIsDeterministic(reports: seq<Report>, persisted: map<string, string>, order: seq<string>)
    requires AnOrderOf(order, Names(Flatten(reports)))
    ensures var all := Flatten(reports);
            Sort(ChosenThreads(all, persisted, order) + ThreadsOf(Of(all, ""))) == Merged(reports, persisted)
  {
    hide Of, NamedIds, Chosen, Sort;
    var all := Flatten(reports);
    var first := NamedIds(all);
    assert forall id :: id in first <==> id in Names(all);
    var one, two := ChosenThreads(all, persisted, order), ChosenThreads(all, persisted, first);
    var anonymous := ThreadsOf(Of(all, ""));
    SameElements(all, persisted, order, first);
    SameElements(all, persisted, first, order);
    SortIsStrict(one);
    SortIsStrict(two);
    StrictlySortedIsUnique(Sort(one), Sort(two));
    SortOfBoth(one, anonymous);
    SortOfBoth(two, anonymous);
  }

  lemma SortOfBoth(a: seq<Thread>, b: seq<Thread>)
    ensures Sort(a + b) == InsertAll(Sort(a), b)
  {
    SortInTwo([], a, b);
  }

  lemma SameElements(all: seq<Candidate>, persisted: map<string, string>, order: seq<string>, other: seq<string>)
    requires AnOrderOf(order, Names(all)) && AnOrderOf(other, Names(all))
    ensures Distinct(ChosenThreads(all, persisted, order))
    ensures forall t :: t in ChosenThreads(all, persisted, order) ==> t in ChosenThreads(all, persisted, other)
  {
    hide Of, NamedIds, Select, Names;
    var one, two := ChosenThreads(all, persisted, order), ChosenThreads(all, persisted, other);
    forall t | t in one
      ensures t in two
    {
      var i :| 0 <= i < |one| && one[i] == t;
      assert order[i] in other;
      var j :| 0 <= j < |other| && other[j] == order[i];
      assert two[j] == t;
    }
  }

  // ---- the method ----

  method CollectByID(reports: seq<Report>) returns (byID: map<string, seq<Candidate>>, anonymous: seq<Thread>)
    ensures Collected(Flatten(reports), byID, anonymous)
  {
    hide Of, Names, NamedIds, Collected;
    byID, anonymous := map[], [];
    ghost var all: seq<Candidate> := [];
    NothingCollected();
    for r := 0 to |reports|
      invariant Collected(all, byID, anonymous) && all == Flatten(reports[..r])
    {
      var report := reports[r];
      for k := 0 to |report.threads|
        invariant Collected(all, byID, anonymous) && all == Flatten(reports[..r]) + Offered(report)[..k]
      {
        var thread := report.threads[k];
        var candidate := Candidate(report.accountId, report.index, thread);
        assert Offered(report)[..k + 1] == Offered(report)[..k] + [candidate];
        if thread.id == "" {
          CollectAnonymous(all, byID, anonymous, candidate);
          anonymous := anonymous + [thread];
        } else {
          CollectNamed(all, byID, anonymous, candidate);
          byID := byID[thread.id := (if thread.id in byID then byID[thread.id] else []) + [candidate]];
        }
        all := all + [candidate];
      }
      assert Offered(report)[..|report.threads|] == Offered(report);
      assert reports[..r + 1][..r] == reports[..r];
    }
    assert reports[..|reports|] == reports;
  }

  lemma NothingCollected()
    ensures Collected([], map[], [])
  {
  }

  ghost predicate Collected(all: seq<Candidate>, byID: map<string, seq<Candidate>>, anonymous: seq<Thread>) {
    && byID.Keys == Names(all) && (forall id :: id in byID ==> byID[id] == Of(all, id))
    && anonymous == ThreadsOf(Of(all, ""))
  }

  lemma OfOneMore(all: seq<Candidate>, c: Candidate, id: string)
    ensures Of(all + [c], id) == if c.thread.id == id then Of(all, id) + [c] else Of(all, id)
  {
    assert (all + [c])[..|all|] == all;
  }

  lemma NamesOfOneMore(all: seq<Candidate>, c: Candidate)
    ensures Names(all + [c]) == if c.thread.id == "" then Names(all) else Names(all) + {c.thread.id}
  {
    assert (all + [c])[..|all|] == all;
  }

  function Filed(byID: map<string, seq<Candidate>>, c: Candidate): map<string, seq<Candidate>> {
    byID[c.thread.id := (if c.thread.id in byID then byID[c.thread.id] else []) + [c]]
  }

  lemma CollectAnonymous(all: seq<Candidate>, byID: map<string, seq<Candidate>>, anonymous: seq<Thread>, c: Candidate)
    requires Collected(all, byID, anonymous) && c.thread.id == ""
    ensures Collected(all + [c], byID, anonymous + [c.thread])
  {
    NamesOfOneMore(all, c);
    OfOneMore(all, c, "");
    NoEmptyName(all);
    hide Of, Names, NamedIds;
    forall id | id in byID
      ensures byID[id] == Of(all + [c], id)
    {
      OfOneMore(all, c, id);
    }
  }

  lemma NoEmptyName(all: seq<Candidate>)
    ensures "" !in Names(all)
  {
  }

  lemma CollectNamed(all: seq<Candidate>, byID: map<string, seq<Candidate>>, anonymous: seq<Thread>, c: Candidate)
    requires Collected(all, byID, anonymous) && c.thread.id != ""
    ensures Collected(all + [c], Filed(byID, c), anonymous)
  {
    hide Of, Names, NamedIds, Time;
    NamesOfOneMore(all, c);
    OfOneMore(all, c, "");
    assert Filed(byID, c).Keys == byID.Keys + {c.thread.id};
    forall id | id in Filed(byID, c)
      ensures Filed(byID, c)[id] == Of(all + [c], id)
    {
      FiledIs(all, byID, c, id);
    }
  }

  lemma FiledIs(all: seq<Candidate>, byID: map<string, seq<Candidate>>, c: Candidate, id: string)
    requires byID.Keys == Names(all) && c.thread.id != "" && id in Filed(byID, c)
    requires id in byID ==> byID[id] == Of(all, id)
    ensures Filed(byID, c)[id] == Of(all + [c], id)
  {
    hide Of, Names, NamedIds;
    OfOneMore(all, c, id);
    if c.thread.id !in byID {
      UnnamedIsNotOffered(all, c.thread.id);
    }
  }

  lemma UnnamedIsNotOffered(all: seq<Candidate>, id: string)
    requires id != "" && id !in Names(all)
    ensures Of(all, id) == []
  {
    if Of(all, id) != [] {
      var c := Of(all, id)[0];
    }
  }

  lemma FirstFromStep(s: seq<Candidate>, k: nat, account: string)
    requires k < |s|
    ensures FirstFrom(s[k..], account) == if s[k].accountId == account then Some(s[k])
              else FirstFrom(s[k + 1..], account)
  {
    assert s[k..][1..] == s[k + 1..];
  }

  lemma NewestOfOne(s: seq<Candidate>)
    requires s != []
    ensures Newest(s[..1]) == s[0]
  {
  }

  lemma NewestStep(s: seq<Candidate>, k: nat)
    requires 0 < k < |s|
    ensures var c, newest := s[k], Newest(s[..k]);
            Newest(s[..k + 1]) ==
            if Time(c.thread) > Time(newest.thread) ||
              (Time(c.thread) == Time(newest.thread) && c.accountIndex < newest.accountIndex)
            then c else newest
  {
    hide Time;
    assert s[..k + 1][..k] == s[..k];
  }

  /** The two loops over the candidates of one thread. */
  method SelectCandidate(candidates: seq<Candidate>, persisted: Option<string>) returns (selected: Candidate)
    requires candidates != []
    ensures selected == Select(candidates, persisted)
  {
    hide FirstFrom, Newest, Time;
    selected := candidates[0];
    NewestOfOne(candidates);
    if persisted.Some? {
      var k := 0;
      assert candidates[0..] == candidates;
      while k < |candidates|
        invariant k <= |candidates| && FirstFrom(candidates, persisted.value) ==
                    FirstFrom(candidates[k..], persisted.value)
      {
        FirstFromStep(candidates, k, persisted.value);
        if candidates[k].accountId == persisted.value {
          return candidates[k];
        }
        k := k + 1;
      }
    }
    for k := 1 to |candidates|
      invariant selected == Newest(candidates[..k])
    {
      var candidate := candidates[k];
      NewestStep(candidates, k);
      if Time(candidate.thread) > Time(selected.thread) ||
         (Time(candidate.thread) == Time(selected.thread) && candidate.accountIndex < selected.accountIndex) {
        selected := candidate;
      }
    }
    assert candidates[..|candidates|] == candidates;
  }

  ghost predicate Visited(all: seq<Candidate>, persisted: map<string, string>, order: seq<string>, ids: set<string>,
                          threads: seq<Thread>, owners: map<string, string>)
    requires ids <= Names(all)
  {
    && AnOrderOf(order, ids)
    && threads == ChosenThreads(all, persisted, order)
    && owners == map id | id in ids :: Chosen(all, persisted, id).accountId
  }

  lemma VisitOneMore(all: seq<Candidate>, persisted: map<string, string>, order: seq<string>, ids: set<string>,
                     threads: seq<Thread>, owners: map<string, string>, id: string)
    requires ids <= Names(all) && Visited(all, persisted, order, ids, threads, owners)
    requires id in Names(all) && id !in ids
    ensures var c := Chosen(all, persisted, id);
            Visited(all, persisted, order + [id], ids + {id}, threads + [c.thread], owners[id := c.accountId])
  {
    hide Of, Names, NamedIds, Select;
  }

  /** mergeThreadsDeterministically: the threads come in whatever order the names were visited. */
  method MergeThreads(reports: seq<Report>, persisted: map<string, string>)
    returns (threads: seq<Thread>, owners: map<string, string>)
    ensures var all := Flatten(reports);
            exists order :: AnOrderOf(order, Names(all)) &&
                            threads == ChosenThreads(all, persisted, order) + ThreadsOf(Of(all, ""))
    ensures owners == Owners(reports, persisted)
  {
    hide Of, Names, NamedIds, Select, ChosenThreads, ThreadsOf, Chosen;
    var byID, anonymous := CollectByID(reports);
    ghost var all, order := Flatten(reports), [];
    threads, owners := [], map[];
    var unvisited := byID.Keys;
    NothingVisited(all, persisted);
    assert byID.Keys - unvisited == {};
    while unvisited != {}
      invariant unvisited <= byID.Keys
      invariant Visited(all, persisted, order, byID.Keys - unvisited, threads, owners)
      decreases |unvisited|
    {
      var id :| id in unvisited;
      var selected := SelectCandidate(byID[id], Lookup(persisted, id));
      VisitOneMore(all, persisted, order, byID.Keys - unvisited, threads, owners, id);
      ChosenIs(all, persisted, id);
      assert byID.Keys - (unvisited - {id}) == byID.Keys - unvisited + {id};
      unvisited := unvisited - {id};
      threads := threads + [selected.thread];
      owners := owners[id := selected.accountId];
      order := order + [id];
    }
    assert byID.Keys - unvisited == byID.Keys;
    assert AnOrderOf(order, Names(all));
    threads := threads + anonymous;
  }

  lemma NothingVisited(all: seq<Candidate>, persisted: map<string, string>)
    ensures Visited(all, persisted, [], {}, [], map[])
  {
  }

  lemma ChosenIs(all: seq<Candidate>, persisted: map<string, string>, id: string)
    requires Of(all, id) != []
    ensures Chosen(all, persisted, id) == Select(Of(all, id), Lookup(persisted, id))
  {
  }

  /** sort.SliceStable with the comparator of sortThreads: a library routine, here a stable insertion sort. */
  method SortThreads(s: seq<Thread>) returns (t: seq<Thread>)
    ensures t == Sort(s)
  {
    t := [];
    for k := 0 to |s|
      invariant t == Sort(s[..k])
    {
      assert s[..k + 1][..k] == s[..k];
      t := Insert(t, s[k]);
    }
    assert s[..|s|] == s;
  }

  /** The list a request is served from is a function of what was reported. */
  method MergeAndSort(reports: seq<Report>, persisted: map<string, string>)
    returns (threads: seq<Thread>, owners: map<string, string>)
    ensures threads == Merged(reports, persisted) && owners == Owners(reports, persisted)
  {
    threads, owners := MergeThreads(reports, persisted);
    ghost var all := Flatten(reports);
    ghost var order :| AnOrderOf(order, Names(all)) && threads == ChosenThreads(all, persisted,
                                 order) + ThreadsOf(Of(all, ""));
    MergeIsDeterministic(reports, persisted, order);
    threads := SortThreads(threads);
  }

  // ---- what is in the list ----

  lemma {:induction false} InsertKeepsMultiset(s: seq<Thread>, x: Thread)
    ensures multiset(Insert(s, x)) == multiset(s) + multiset{x}
  {
    if s != [] && Before(x, s[|s| - 1]) {
      InsertKeepsMultiset(s[..|s| - 1], x);
      assert s == s[..|s| - 1] + [s[|s| - 1]];
    }
  }

  lemma {:induction false} SortKeepsMultiset(s: seq<Thread>)
    ensures multiset(Sort(s)) == multiset(s)
  {
    if s != [] {
      SortKeepsMultiset(s[..|s| - 1]);
      InsertKeepsMultiset(Sort(s[..|s| - 1]), s[|s| - 1]);
      assert s == s[..|s| - 1] + [s[|s| - 1]];
    }
  }

  lemma {:induction false} InsertKeepsSorted(s: seq<Thread>, x: Thread)
    requires Sorted(s)
    ensures Sorted(Insert(s, x))
  {
    if s != [] {
      var front, last := s[..|s| - 1], s[|s| - 1];
      if Before(x, last) {
        InsertKeepsSorted(front, x);
        BeforeIsTotal(x, last);
        forall i | 0 <= i < |Insert(front, x)|
          ensures !Before(last, Insert(front, x)[i])
        {
          assert Insert(front, x)[i] in Insert(front, x);
        }
      } else {
        forall i | 0 <= i < |s|
          ensures !Before(x, s[i])
        {
          NotBeforeChains(s[i], last, x, i == |s| - 1);
        }
      }
    }
  }

  lemma NotBeforeChains(a: Thread, b: Thread, c: Thread, same: bool)
    requires !Before(c, b) && (if same then a == b else !Before(b, a))
    ensures !Before(c, a)
  {
    Text.LessIsTotal(a.id, b.id);
    Text.LessIsTotal(b.id, c.id);
    if Before(c, a) && !same {
      if Time(a) == Time(b) == Time(c) {
        if a.id != b.id && b.id != c.id {
          Text.LessIsTransitive(a.id, b.id, c.id);
          Text.LessIsTotal(a.id, c.id);
        }
      }
    }
  }

  lemma {:induction false} SortIsSorted(s: seq<Thread>)
    ensures Sorted(Sort(s))
  {
    if s != [] {
      SortIsSorted(s[..|s| - 1]);
      InsertKeepsSorted(Sort(s[..|s| - 1]), s[|s| - 1]);
    }
  }

  /**
    The list is sorted and holds every anonymous thread as often as it was reported, and for every reported name the
    one chosen thread, once.
  */
  lemma MergedContents(reports: seq<Report>, persisted: map<string, string>)
    ensures var all, list := Flatten(reports), Merged(reports, persisted);
            && Sorted(list)
            && (forall id :: id in Names(all) ==> multiset(list)[Chosen(all, persisted, id).thread] == 1)
            && (forall t :: t in list ==>
                 t.id == "" || (t.id in Names(all) && t == Chosen(all, persisted, t.id).thread))
            && (forall t: Thread :: t.id == "" ==> multiset(list)[t] == multiset(ThreadsOf(Of(all, "")))[t])
  {
    hide Of, NamedIds, Select, Sort, Sorted, Flatten, Names;
    var all, list := Flatten(reports), Merged(reports, persisted);
    NamesAreNamedIds(all);
    var named, anonymous := ChosenThreads(all, persisted, NamedIds(all)), ThreadsOf(Of(all, ""));
    SortIsSorted(named + anonymous);
    SortKeepsMultiset(named + anonymous);
    assert multiset(list) == multiset(named) + multiset(anonymous);
    hide Merged;
    forall id | id in Names(all)
      ensures multiset(list)[Chosen(all, persisted, id).thread] == 1
    {
      ChosenOccursOnce(all, persisted, id);
    }
    forall t | t in list
      ensures t.id == "" || (t.id in Names(all) && t == Chosen(all, persisted, t.id).thread)
    {
      assert t in multiset(list);
      OriginOf(all, persisted, t);
    }
    forall t: Thread | t.id == ""
      ensures multiset(list)[t] == multiset(anonymous)[t]
    {
      NamedAreNotAnonymous(all, persisted, t);
    }
  }

  lemma ChosenOccursOnce(all: seq<Candidate>, persisted: map<string, string>, id: string)
    requires id in Names(all)
    ensures var named, anonymous := ChosenThreads(all, persisted, NamedIds(all)), ThreadsOf(Of(all, ""));
            (multiset(named) + multiset(anonymous))[Chosen(all, persisted, id).thread] == 1
  {
    hide Of, NamedIds, Select, Names;
    NamesAreNamedIds(all);
    var named, anonymous := ChosenThreads(all, persisted, NamedIds(all)), ThreadsOf(Of(all, ""));
    var i :| 0 <= i < |NamedIds(all)| && NamedIds(all)[i] == id;
    OccursOnce(named, i);
    assert named[i] !in anonymous;
  }

  lemma OriginOf(all: seq<Candidate>, persisted: map<string, string>, t: Thread)
    requires t in multiset(ChosenThreads(all, persisted, NamedIds(all))) + multiset(ThreadsOf(Of(all, "")))
    ensures t.id == "" || (t.id in Names(all) && t == Chosen(all, persisted, t.id).thread)
  {
    hide Of, NamedIds, Select, Names;
    NamesAreNamedIds(all);
    var named := ChosenThreads(all, persisted, NamedIds(all));
    if t in named {
      var i :| 0 <= i < |named| && named[i] == t;
    }
  }

  lemma NamedAreNotAnonymous(all: seq<Candidate>, persisted: map<string, string>, t: Thread)
    requires t.id == ""
    ensures t !in ChosenThreads(all, persisted, NamedIds(all))
  {
    hide Of, NamedIds, Select, Names;
    NamesAreNamedIds(all);
  }

  lemma NamesAreNamedIds(all: seq<Candidate>)
    ensures forall id :: id in NamedIds(all) <==> id in Names(all)
    ensures "" !in Names(all)
  {
  }

  lemma OccursOnce(s: seq<Thread>, i: nat)
    requires i < |s| && Distinct(s)
    ensures multiset(s)[s[i]] == 1
  {
    assert s == s[..i] + [s[i]] + s[i + 1..];
    assert s[i] !in s[..i] && s[i] !in s[i + 1..];
  }

  // ---- in plain terms ----

  /** When the thread was last updated, or else when it was created, or else the beginning of time. */
  predicate At(t: Thread, time: real) {
    || t.updatedAt == Some(time)
    || (t.updatedAt == None && t.createdAt == Some(time))
    || (t.updatedAt == None && t.createdAt == None && time == 0.0)
  }

  lemma TimeIs(t: Thread)
    ensures At(t, Time(t)) && forall time :: At(t, time) ==> time == Time(t)
  {
  }

  /** The list served starts with the newest thread; threads of one time are in the order of their names. */
  lemma NewestFirst(reports: seq<Report>, persisted: map<string, string>, i: nat, j: nat, x: real, y: real)
    requires i < j < |Merged(reports, persisted)|
    requires At(Merged(reports, persisted)[i], x) && At(Merged(reports, persisted)[j], y)
    ensures var a, b := Merged(reports, persisted)[i], Merged(reports, persisted)[j];
            x >= y && (x == y ==> a.id == b.id || exists k: nat :: Text.DiffersAt(a.id, b.id, k))
  {
    var list := Merged(reports, persisted);
    var a, b := list[i], list[j];
    MergedContents(reports, persisted);
    TimeIs(a);
    TimeIs(b);
    assert !Before(b, a);
    hide Merged, Time, Text.Less;
    Text.LessIsTotal(a.id, b.id);
    Text.LessIsLexicographic(a.id, b.id);
  }

  /**
    A named thread is shown as the account reports it that is persisted as its owner, in its first report, if that
    account reports it at all; otherwise as it was reported newest, by the first account in case of a tie.
  */
  lemma ShownAsOwned(all: seq<Candidate>, persisted: map<string, string>, id: string, d: Candidate, x: real, y: real)
    requires Of(all, id) != [] && d in all && d.thread.id == id
    requires At(Chosen(all, persisted, id).thread, x) && At(d.thread, y)
    ensures var c := Chosen(all, persisted, id);
            && c in all && c.thread.id == id
            && (if id in persisted && exists e :: e in all && e.thread.id == id && e.accountId == persisted[id] then
                  c.accountId == persisted[id] && FirstOf(Of(all, id), c)
                else x > y || (x == y && c.accountIndex <= d.accountIndex))
  {
    var s, c := Of(all, id), Chosen(all, persisted, id);
    TimeIs(c.thread);
    TimeIs(d.thread);
    if id in persisted {
      FirstFromIsFirst(s, persisted[id]);
    }
    SelectionIsSound(s, Lookup(persisted, id));
    hide Of, Select, Newest, FirstFrom, Time;
  }

  /** No candidate before c is of its account. */
  ghost predicate FirstOf(s: seq<Candidate>, c: Candidate) {
    exists k :: 0 <= k < |s| && s[k] == c && forall j :: 0 <= j < k ==> s[j].accountId != c.accountId
  }

  lemma {:induction false} FirstFromIsFirst(s: seq<Candidate>, account: string)
    ensures FirstFrom(s, account).Some? ==> FirstOf(s, FirstFrom(s, account).value)
  {
    if s != [] && s[0].accountId != account {
      FirstFromIsFirst(s[1..], account);
      if FirstFrom(s, account).Some? {
        var c := FirstFrom(s, account).value;
        var k :| 0 <= k < |s[1..]| && s[1..][k] == c && forall j :: 0 <= j < k ==> s[1..][j].accountId != c.accountId;
        assert s[k + 1] == c && forall j :: 0 < j < k + 1 ==> s[j] == s[1..][j - 1];
      }
    }
  }

  // ---- ties ----

  /** The threads of s that compare equal to x. */
  function Ties(s: seq<Thread>, x: Thread): seq<Thread> {
    if s == [] then []
    else
      var last := s[|s| - 1];
      Ties(s[..|s| - 1], x) + (if Time(last) == Time(x) && last.id == x.id then [last] else [])
  }

  lemma TiesOfOneMore(s: seq<Thread>, y: Thread, x: Thread)
    ensures Ties(s + [y], x) == Ties(s, x) + (if Time(y) == Time(x) && y.id == x.id then [y] else [])
  {
    assert (s + [y])[..|s|] == s;
  }

  lemma {:induction false} InsertKeepsTies(s: seq<Thread>, y: Thread, x: Thread)
    ensures Ties(Insert(s, y), x) == Ties(s, x) + (if Time(y) == Time(x) && y.id == x.id then [y] else [])
  {
    hide Time;
    TiesOfOneMore(s, y, x);
    if s == [] {
      assert s + [y] == [y];
    } else {
      var front, last := s[..|s| - 1], s[|s| - 1];
      assert s == front + [last];
      if Before(y, last) {
        InsertKeepsTies(front, y, x);
        TiesOfOneMore(Insert(front, y), last, x);
        TiesOfOneMore(front, last, x);
        Text.LessIsIrreflexive(last.id);
      }
    }
  }

  /** Sorting keeps threads that compare equal in the order they were reported in. */
  lemma {:induction false} SortIsStable(s: seq<Thread>, x: Thread)
    ensures Ties(Sort(s), x) == Ties(s, x)
  {
    hide Time;
    if s != [] {
      SortIsStable(s[..|s| - 1], x);
      InsertKeepsTies(Sort(s[..|s| - 1]), s[|s| - 1], x);
    }
  }

  // ---- what was reported, and by whom ----

  /** Nothing is a candidate but what some account reported. */
  lemma {:induction false} ReportedExactly(reports: seq<Report>, c: Candidate)
    ensures c in Flatten(reports) <==>
              exists r :: r in reports && c.accountId == r.accountId && c.accountIndex == r.index
                && c.thread in r.threads
  {
    if reports != [] {
      var front, last := reports[..|reports| - 1], reports[|reports| - 1];
      assert reports == front + [last];
      ReportedExactly(front, c);
      OfferedExactly(last, c);
    }
  }

  lemma OfferedExactly(r: Report, c: Candidate)
    ensures c in Offered(r) <==> c.accountId == r.accountId && c.accountIndex == r.index && c.thread in r.threads
  {
    if c.accountId == r.accountId && c.accountIndex == r.index && c.thread in r.threads {
      var i :| 0 <= i < |r.threads| && r.threads[i] == c.thread;
      assert Offered(r)[i] == c;
    }
  }

  /** The owner kept for a name is the account whose report of it is shown. */
  lemma OwnerIsShown(reports: seq<Report>, persisted: map<string, string>, id: string)
    ensures id in Owners(reports, persisted) <==>
              id != "" && exists c :: c in Flatten(reports) && c.thread.id == id
    ensures id in Owners(reports, persisted) ==>
              exists c :: c in Flatten(reports) && c.thread.id == id && c.thread in Merged(reports, persisted)
                && c.accountId == Owners(reports, persisted)[id]
  {
    var all := Flatten(reports);
    NamesAreNamedIds(all);
    if id in Owners(reports, persisted) {
      MergedContents(reports, persisted);
      var c := Chosen(all, persisted, id);
      hide Merged, Flatten, Of, NamedIds, Select;
      assert multiset(Merged(reports, persisted))[c.thread] == 1;
      assert c.thread in multiset(Merged(reports, persisted));
    }
    hide Merged, Flatten, Of, Select;
  }
}
