/**
  What each operation of the store leaves behind, in memory and on disk, in terms of accounts, threads and the routing
  mode: internal/state/store.go and internal/state/routing_mode.go.
*/
module StoreResults {
  import opened Common
  import opened Validation
  import opened Store
  import opened StoreSafety
  import Text

  // ---- assigning threads ----

  /** A thread can be assigned: its id is clean and at most 4096 bytes, and the account exists. */
  predicate Assignable(w: World, thread: string, account: string) {
    Clean(thread, 4096) && Known(w, account)
  }

  predicate Known(w: World, id: string) {
    exists i :: 0 <= i < |w.accounts| && w.accounts[i].id == id
  }

  lemma AssignableIsChecked(w: World, assignments: map<string, string>)
    ensures (exists t :: t in assignments && !Assignable(w, t, assignments[t])) <==>
              exists t :: t in assignments && !(ValidThreadID(t) && Exists(w.accounts, assignments[t]))
  {
    forall t | t in assignments
      ensures Assignable(w, t, assignments[t]) <==> ValidThreadID(t) && Exists(w.accounts, assignments[t])
    {
      CleanIsTrimmed(t);
    }
    hide ValidThreadID, Assignable, Exists;
  }

  /** Assigning is refused if some thread cannot be assigned, and fails if a save is needed and does not succeed. */
  lemma OwnerErrors(w: World, assignments: map<string, string>, saved: bool)
    ensures var error := SetThreadOwners(w, assignments, saved).1;
            && (error == Some(InvalidAssignment) <==>
                 exists t :: t in assignments && !Assignable(w, t, assignments[t]))
            && (error == Some(SaveFailed) <==>
                 && error != Some(InvalidAssignment) && !saved
                 && exists t :: t in assignments && (t !in w.owners || w.owners[t] != assignments[t]))
            && (error.Some? ==> error == Some(InvalidAssignment) || error == Some(SaveFailed))
  {
    AssignableIsChecked(w, assignments);
    hide ValidThreadID, Assignable, Exists, SaveState;
  }

  /**
    When assigning succeeds each assigned thread belongs to the account it was assigned to and every other one to the
    account it had, in memory and on disk. Otherwise nothing changes.
  */
  lemma OwnersAreAssigned(w: World, assignments: map<string, string>, saved: bool)
    requires Consistent(w)
    ensures var (w', error) := SetThreadOwners(w, assignments, saved);
            && (error.Some? ==> w' == w)
            && (error.None? ==>
                  && w'.owners.Keys == w.owners.Keys + assignments.Keys
                  && (forall t :: t in assignments ==> w'.owners[t] == assignments[t])
                  && (forall t :: t in w.owners && t !in assignments ==> w'.owners[t] == w.owners[t]))
            && w'.accounts == w.accounts && w'.routingMode == w.routingMode
            && w'.disk.state == Persisted(1, w.accounts, w'.owners) && w'.disk.mode == w.disk.mode
  {
    StateIsOnDisk(w);
    OwnersAreMerged(w, assignments, saved);
    MergeKeepsOthers(w.owners, assignments);
    hide *;
  }

  lemma OwnersAreMerged(w: World, assignments: map<string, string>, saved: bool)
    ensures var (w', error) := SetThreadOwners(w, assignments, saved);
            && (error.Some? ==> w' == w)
            && (error.None? ==>
                  w'.owners == w.owners + assignments &&
                  (w' == w || w' == SaveState(w.(owners := w.owners + assignments), true)))
            && (w' == w || w'.disk.state == Persisted(1, w.accounts, w'.owners))
            && w'.accounts == w.accounts && w'.routingMode == w.routingMode && w'.disk.mode == w.disk.mode
  {
    hide ValidThreadID, Exists;
    if forall t :: t in assignments ==> t in w.owners && w.owners[t] == assignments[t] {
      assert w.owners + assignments == w.owners;
    }
  }

  lemma MergeKeepsOthers(owners: map<string, string>, assignments: map<string, string>)
    ensures var merged := owners + assignments;
            && merged.Keys == owners.Keys + assignments.Keys
            && (forall t :: t in assignments ==> merged[t] == assignments[t])
            && (forall t :: t in owners && t !in assignments ==> merged[t] == owners[t])
  {
  }

  // ---- updating an account ----

  /** No account can be called that. */
  ghost predicate BadName(given: string) {
    exists name :: Text.TrimsTo(given, name) &&
      (name == "" || Text.Utf8Length(name) > 256 || exists i :: 0 <= i < |name| && name[i] == '\0')
  }

  lemma NameIsBad(given: string)
    ensures BadName(given) <==> Text.TrimSpace(given) == "" || TooLong(Text.TrimSpace(given))
  {
    Text.TrimSpaceIsExact(given, Text.TrimSpace(given));
    forall name | Text.TrimsTo(given, name)
      ensures name == Text.TrimSpace(given)
    {
      Text.TrimSpaceIsExact(given, name);
    }
  }

  /** a, but for the name and the flag that are given. */
  ghost predicate Updated(a: Account, name: Option<string>, enabled: Option<bool>, b: Account) {
    && b.id == a.id && b.home == a.home && b.controller == a.controller && b.createdAt == a.createdAt
    && (if name.Some? then Text.TrimsTo(name.value, b.name) else b.name == a.name)
    && b.enabled == (if enabled.Some? then enabled.value else a.enabled)
  }

  /** The account is disabled while it is the preferred one. */
  predicate Leaving(w: World, id: string, enabled: Option<bool>) {
    enabled == Some(false) && w.routingMode.accountId == id
  }

  /** An identity stands for one account, and the primary account is the controller. */
  lemma OneOfEach(w: World, id: string)
    requires Consistent(w)
    ensures var i := IndexOf(w.accounts, id);
            && (i < |w.accounts| <==> Known(w, id))
            && (forall j :: 0 <= j < |w.accounts| ==> (w.accounts[j].id == id <==> j == i))
            && (i < |w.accounts| ==> (w.accounts[i].controller <==> id == "primary"))
            && (i < |w.accounts| && id != "primary" ==> TrustedHome(w.accounts[i], w.disk.homes))
  {
    var i := IndexOf(w.accounts, id);
    hide Text.TrimSpace;
    Parts(w);
    assert forall j :: 0 <= j < |w.accounts| && j != i && i < |w.accounts| && w.accounts[j].id == id ==>
        Fold(w.accounts[i].id) == Fold(w.accounts[j].id);
    if i < |w.accounts| {
      assert AcceptableAccount(w.accounts[i], w.disk.homes);
    }
  }

  lemma StateIsOnDisk(w: World)
    requires Consistent(w)
    ensures w.disk.state == Persisted(1, w.accounts, w.owners)
  {
    hide Good;
  }

  lemma UpdateIsCalled(w: World, id: string, name: Option<string>, enabled: Option<bool>, modeSaved: bool, saved: bool)
    ensures var r, i := UpdateAccount(w, id, name, enabled, modeSaved, saved).1, IndexOf(w.accounts, id);
            if i == |w.accounts| then r == Err(NotFound)
            else if enabled == Some(false) && w.accounts[i].controller then r == Err(ControllerMustStay)
            else if name.Some? && (Text.TrimSpace(name.value) == "" || TooLong(Text.TrimSpace(name.value))) then
              r == Err(InvalidName)
            else if !saved || (Leaving(w, id, enabled) && !modeSaved) then r == Err(SaveFailed)
            else r.Ok?
  {
    hide TooLong, Text.TrimSpace, SaveState, SaveMode;
  }

  /** When an update is refused or fails: each error has its cause, the first that applies. */
  lemma UpdateErrors(w: World, id: string, name: Option<string>, enabled: Option<bool>, modeSaved: bool, saved: bool)
    requires Consistent(w)
    ensures var r := UpdateAccount(w, id, name, enabled, modeSaved, saved).1;
            && (r == Err(NotFound) <==> !Known(w, id))
            && (r == Err(ControllerMustStay) <==> Known(w, id) && id == "primary" && enabled == Some(false))
            && (r == Err(InvalidName) <==>
                 && Known(w, id) && !(id == "primary" && enabled == Some(false))
                 && name.Some? && BadName(name.value))
            && (r == Err(SaveFailed) <==>
                 && Known(w, id) && !(id == "primary" && enabled == Some(false))
                 && (name.Some? ==> !BadName(name.value))
                 && (!saved || (Leaving(w, id, enabled) && !modeSaved)))
            && (r.Err? ==> r.error in {NotFound, ControllerMustStay, InvalidName, SaveFailed})
  {
    OneOfEach(w, id);
    if name.Some? {
      NameIsBad(name.value);
    }
    UpdateIsCalled(w, id, name, enabled, modeSaved, saved);
    hide *;
  }

  lemma OnlyOneIsUpdated(w: World, id: string, name: Option<string>, enabled: Option<bool>, modeSaved: bool,
                         saved: bool)
    requires IndexOf(w.accounts, id) < |w.accounts|
    ensures var (w', r), i := UpdateAccount(w, id, name, enabled, modeSaved, saved), IndexOf(w.accounts, id);
            if r.Ok? then
              w'.accounts == w.accounts[i := r.value] && Updated(w.accounts[i], name, enabled, r.value)
            else w'.accounts == w.accounts
  {
    if name.Some? {
      Text.TrimSpaceIsExact(name.value, Text.TrimSpace(name.value));
    }
    hide Text.TrimSpace, Text.TrimsTo, TooLong;
  }

  /** What becomes of the accounts. */
  lemma UpdateTouchesOneAccount(w: World, id: string, name: Option<string>, enabled: Option<bool>, modeSaved: bool,
                                saved: bool)
    requires Consistent(w)
    ensures var (w', r) := UpdateAccount(w, id, name, enabled, modeSaved, saved);
            && |w'.accounts| == |w.accounts|
            && (forall i :: 0 <= i < |w.accounts| ==>
                  if r.Ok? && w.accounts[i].id == id then
                    w'.accounts[i] == r.value && Updated(w.accounts[i], name, enabled, w'.accounts[i])
                  else w'.accounts[i] == w.accounts[i])
  {
    OneOfEach(w, id);
    if IndexOf(w.accounts, id) < |w.accounts| {
      OnlyOneIsUpdated(w, id, name, enabled, modeSaved, saved);
      hide *;
    } else {
      hide Consistent, Updated, Text.TrimSpace, TooLong;
    }
  }

  /**
    An update changes the given fields of that one account and nothing else, in memory and on disk; only a preferred
    account that is disabled is also given up for Auto. An update that fails changes at most that.
  */
  lemma UpdateChangesOneAccount(w: World, id: string, name: Option<string>, enabled: Option<bool>, modeSaved: bool,
                                saved: bool)
    requires Consistent(w)
    ensures var (w', r) := UpdateAccount(w, id, name, enabled, modeSaved, saved);
            && |w'.accounts| == |w.accounts| && w'.owners == w.owners
            && (forall i :: 0 <= i < |w.accounts| ==>
                  if r.Ok? && w.accounts[i].id == id then
                    w'.accounts[i] == r.value && Updated(w.accounts[i], name, enabled, w'.accounts[i])
                  else w'.accounts[i] == w.accounts[i])
            && w'.disk.state == Persisted(1, w'.accounts, w'.owners)
            && (w'.routingMode, w'.disk.mode) ==
               if Leaving(w, id, enabled) && modeSaved && (r.Ok? || r == Err(SaveFailed)) then
                 (RoutingMode("auto", ""), Some(RoutingMode("auto", "")))
               else (w.routingMode, w.disk.mode)
  {
    UpdateTouchesOneAccount(w, id, name, enabled, modeSaved, saved);
    StateIsOnDisk(w);
    hide Consistent, Updated, Text.TrimSpace, TooLong;
  }

  // ---- removing an account ----

  /** An identity with a separator, or that steps out of its directory, is refused before anything is looked up. */
  predicate Unsafe(id: string) {
    || (exists i :: 0 <= i < |id| && (id[i] == '/' || id[i] == '\\'))
    || exists i :: 0 <= i < |id| - 1 && id[i] == '.' && id[i + 1] == '.'
  }

  /** Nothing stands in the way of removing the account. */
  predicate Removable(w: World, id: string) {
    !Unsafe(id) && Known(w, id) && id != "primary"
  }

  /** When a removal is refused or fails; the home of an account in a consistent store is never untrusted. */
  lemma RemoveErrors(w: World, id: string, modeSaved: bool, saved: bool, quarantined: bool, rollbackSaved: bool,
                     deleted: bool)
    requires Consistent(w)
    ensures var error := RemoveAccount(w, id, modeSaved, saved, quarantined, rollbackSaved, deleted).1;
            var committed := Removable(w, id) && (w.routingMode.accountId == id ==> modeSaved) && saved;
            && (error == Some(InvalidIdentity) <==> Unsafe(id))
            && (error == Some(NotFound) <==> !Unsafe(id) && !Known(w, id))
            && (error == Some(NotRemovable) <==> !Unsafe(id) && Known(w, id) && id == "primary")
            && (error == Some(SaveFailed) <==> Removable(w, id) && !committed)
            && (error == Some(QuarantineFailed) <==> committed && !quarantined)
            && (error == Some(LeftoverFiles) <==> committed && quarantined && !deleted)
            && (error == None <==> committed && quarantined && deleted)
  {
    OneOfEach(w, id);
    hide Consistent, Known, SaveState, SaveMode, DropHome, WithoutOwner, TrustedHome;
  }

  /** w' is w without the account and without its threads. */
  ghost predicate Without(w: World, id: string, w': World) {
    && (exists i :: 0 <= i < |w.accounts| && w.accounts[i].id == id
          && w'.accounts == w.accounts[..i] + w.accounts[i + 1..])
    && (forall t :: t in w'.owners <==> t in w.owners && w.owners[t] != id)
    && (forall t :: t in w'.owners ==> w'.owners[t] == w.owners[t])
  }

  lemma DroppedIsWithout(w: World, i: nat, w': World)
    requires i < |w.accounts| && w'.accounts == w.accounts[..i] + w.accounts[i + 1..]
    requires w'.owners == WithoutOwner(w.owners, w.accounts[i].id)
    ensures Without(w, w.accounts[i].id, w')
  {
  }

  /** A removal that got as far as committing: what it leaves with the directory moved away or not. */
  lemma CommittedDrops(w: World, i: nat, quarantined: bool, rollbackSaved: bool)
    requires Consistent(w) && i < |w.accounts|
    ensures var id, w' := w.accounts[i].id, AfterCommit(w, i, quarantined, rollbackSaved);
            && (quarantined ==>
                  && Without(w, id, w') && w'.disk.state == Persisted(1, w'.accounts, w'.owners)
                  && w'.disk.homes == w.disk.homes - {Fold(id)})
            && (!quarantined ==>
                  && w'.accounts == w.accounts && w'.owners == w.owners && w'.disk.homes == w.disk.homes
                  && (if rollbackSaved then w'.disk.state == w.disk.state
                      else Without(w, id, w.(accounts := w'.disk.state.accounts, owners := w'.disk.state.threadOwner))))
            && (w'.routingMode, w'.disk.mode) ==
               if w.routingMode.accountId == id then (RoutingMode("auto", ""), Some(RoutingMode("auto", "")))
               else (w.routingMode, w.disk.mode)
  {
    StateIsOnDisk(w);
    hide Consistent, Fold, WithoutOwner, Without;
    var id := w.accounts[i].id;
    DroppedIsWithout(w, i, w.(accounts := w.accounts[..i] + w.accounts[i + 1..], owners := WithoutOwner(w.owners, id)));
    DroppedIsWithout(w, i, AfterCommit(w, i, true, true));
  }

  /** What a removal does that is refused, or whose save fails: at most giving up the preferred account. */
  lemma StoppedDropsNothing(w: World, id: string, modeSaved: bool, saved: bool, quarantined: bool,
                            rollbackSaved: bool, deleted: bool)
    requires Consistent(w) && !RemovalCommits(w, id, modeSaved, saved)
    ensures var w' := RemoveAccount(w, id, modeSaved, saved, quarantined, rollbackSaved, deleted).0;
            w' == if Removable(w, id) && w.routingMode.accountId == id && modeSaved then SaveMode(w, AUTO, true) else w
  {
    OneOfEach(w, id);
    hide Consistent, Known, SaveState, SaveMode, DropHome, WithoutOwner, TrustedHome;
  }

  lemma CommitsExactly(w: World, id: string, modeSaved: bool, saved: bool)
    requires Consistent(w)
    ensures RemovalCommits(w, id, modeSaved, saved) <==>
              Removable(w, id) && (w.routingMode.accountId == id ==> modeSaved) && saved
  {
    OneOfEach(w, id);
    hide Consistent, Known, TrustedHome;
  }

  /**
    A removal drops the account and exactly its threads, in memory and on disk, and its directory. One that fails
    drops nothing; only a rollback that cannot be saved leaves the disk without what memory has. A preferred account
    is given up for Auto before anything else, whatever comes of the removal.
  */
  lemma RemoveDropsOneAccount(w: World, id: string, modeSaved: bool, saved: bool, quarantined: bool,
                              rollbackSaved: bool, deleted: bool)
    requires Consistent(w)
    ensures var (w', error) := RemoveAccount(w, id, modeSaved, saved, quarantined, rollbackSaved, deleted);
            && (error == None || error == Some(LeftoverFiles) ==>
                  && Without(w, id, w') && w'.disk.state == Persisted(1, w'.accounts, w'.owners)
                  && w'.disk.homes == w.disk.homes - {Fold(id)})
            && (error != None && error != Some(LeftoverFiles) ==>
                  && w'.accounts == w.accounts && w'.owners == w.owners && w'.disk.homes == w.disk.homes
                  && (if error == Some(QuarantineFailed) && !rollbackSaved then
                        Without(w, id, w.(accounts := w'.disk.state.accounts, owners := w'.disk.state.threadOwner))
                      else w'.disk.state == w.disk.state))
            && (w'.routingMode, w'.disk.mode) ==
               if Removable(w, id) && w.routingMode.accountId == id && modeSaved then
                 (RoutingMode("auto", ""), Some(RoutingMode("auto", "")))
               else (w.routingMode, w.disk.mode)
  {
    var i := IndexOf(w.accounts, id);
    RemoveErrors(w, id, modeSaved, saved, quarantined, rollbackSaved, deleted);
    CommitsExactly(w, id, modeSaved, saved);
    if RemovalCommits(w, id, modeSaved, saved) {
      RemovalEnds(w, id, modeSaved, saved, quarantined, rollbackSaved, deleted);
      assert i < |w.accounts|;
      CommittedDrops(w, i, quarantined, rollbackSaved);
      hide *;
    } else {
      StoppedDropsNothing(w, id, modeSaved, saved, quarantined, rollbackSaved, deleted);
      hide Consistent, Removable, RemoveAccount, RemovalCommits, Without;
    }
  }

  // ---- choosing a mode ----

  /** Auto, or an account's name that can stand in a file name. */
  predicate Choosable(mode: RoutingMode) {
    || (mode.mode == "auto" && mode.accountId == "")
    || (&& mode.mode == "account" && mode.accountId != "" && Text.Utf8Length(mode.accountId) <= 64
        && !Unsafe(mode.accountId) && forall i :: 0 <= i < |mode.accountId| ==> mode.accountId[i] != '\0')
  }

  lemma ModeIsValid(mode: RoutingMode)
    ensures ValidMode(mode) <==> Choosable(mode)
  {
    hide Text.Utf8Length;
  }

  /**
    A chosen mode is the mode in memory and on disk if it is well formed, names an enabled account where it names one,
    and is saved; otherwise nothing changes.
  */
  lemma ModeIsChosen(w: World, mode: RoutingMode, saved: bool)
    ensures var (w', error) := SetRoutingMode(w, mode, saved);
            && (error == Some(InvalidMode) <==> !Choosable(mode))
            && (error == Some(NotRoutable) <==>
                 Choosable(mode) && mode.mode == "account" && !Enabled(w, mode.accountId))
            && (error == Some(SaveFailed) <==>
                 Choosable(mode) && (mode.mode == "account" ==> Enabled(w, mode.accountId)) && !saved)
            && (error.Some? ==> w' == w && error.value in {InvalidMode, NotRoutable, SaveFailed})
            && (error.None? ==>
                  && w'.routingMode == mode && w'.disk.mode == Some(mode)
                  && w'.accounts == w.accounts && w'.owners == w.owners
                  && w'.disk.state == w.disk.state && w'.disk.homes == w.disk.homes)
  {
    ModeIsValid(mode);
    hide ValidMode, Choosable;
  }

  predicate Enabled(w: World, id: string) {
    exists i :: 0 <= i < |w.accounts| && w.accounts[i].id == id && w.accounts[i].enabled
  }

  // ---- adding an account ----

  /** The first k draws gave identities already in use. */
  predicate AllInUse(w: World, drawn: seq<Option<string>>, k: nat)
    requires k <= |drawn|
  {
    forall i :: 0 <= i < k ==> drawn[i].Some? && Known(w, drawn[i].value)
  }

  lemma {:induction false} FreeIsFirst(w: World, drawn: seq<Option<string>>)
    ensures match FreeAmong(w.accounts, drawn)
            case Some(id) =>
              exists k :: 0 <= k < |drawn| && drawn[k] == Some(id) && !Known(w, id) && AllInUse(w, drawn, k)
            case None =>
              || AllInUse(w, drawn, |drawn|)
              || exists k :: 0 <= k < |drawn| && drawn[k].None? && AllInUse(w, drawn, k)
  {
    if drawn != [] && drawn[0].Some? && Known(w, drawn[0].value) {
      var rest := drawn[1..];
      FreeIsFirst(w, rest);
      forall k | 0 <= k <= |rest| && AllInUse(w, rest, k)
        ensures AllInUse(w, drawn, k + 1)
      {
        assert forall i :: 0 < i <= k ==> drawn[i] == rest[i - 1];
      }
      match FreeAmong(w.accounts, drawn)
      case Some(id) =>
        var k :| 0 <= k < |rest| && rest[k] == Some(id) && !Known(w, id) && AllInUse(w, rest, k);
        assert drawn[k + 1] == Some(id) && AllInUse(w, drawn, k + 1);
      case None =>
        if k :| 0 <= k < |rest| && rest[k].None? && AllInUse(w, rest, k) {
          assert drawn[k + 1].None? && AllInUse(w, drawn, k + 1);
        }
    } else if drawn != [] {
      assert AllInUse(w, drawn, 0);
    }
  }

  /** Of at most eight draws the first identity not in use is taken, if there is one before the random source fails. */
  lemma FirstFreeIsFirst(w: World, generated: seq<Option<string>>)
    ensures match FirstFree(w.accounts, generated)
            case Some(id) =>
              exists k :: 0 <= k < |generated| && k < 8 && generated[k] == Some(id) && !Known(w, id) &&
                AllInUse(w, generated, k)
            case None =>
              || (|generated| >= 8 && AllInUse(w, generated, 8))
              || (|generated| < 8 && AllInUse(w, generated, |generated|))
              || exists k :: 0 <= k < |generated| && k < 8 && generated[k].None? && AllInUse(w, generated, k)
  {
    var drawn := Drawn(generated);
    FreeIsFirst(w, drawn);
    forall k | 0 <= k <= |drawn|
      ensures AllInUse(w, drawn, k) <==> AllInUse(w, generated, k)
    {
      assert forall i :: 0 <= i < k ==> drawn[i] == generated[i];
    }
    match FreeAmong(w.accounts, drawn)
    case Some(id) =>
      var k :| 0 <= k < |drawn| && drawn[k] == Some(id) && !Known(w, id) && AllInUse(w, drawn, k);
      assert generated[k] == Some(id) && AllInUse(w, generated, k);
    case None =>
      if k :| 0 <= k < |drawn| && drawn[k].None? && AllInUse(w, drawn, k) {
        assert generated[k].None? && AllInUse(w, generated, k);
      }
  }

  /** The name an account is given: what was typed, without the space around it, or a numbered one. */
  ghost predicate NamedAs(w: World, given: string, name: string) {
    if Text.TrimsTo(given, "") then name == "Subscription " + Text.Decimal(|w.accounts| + 1)
    else Text.TrimsTo(given, name)
  }

  /**
    An addition appends one enabled account that controls nothing, under the identity drawn, in memory and on disk, and
    makes its directory. One that fails leaves accounts, threads and mode as they were.
  */
  lemma AddAppendsOneAccount(w: World, given: string, generated: seq<Option<string>>, prepared: bool, saved: bool,
                             now: int)
    ensures var (w', r) := AddAccount(w, given, generated, prepared, saved, now);
            && w'.owners == w.owners && w'.routingMode == w.routingMode && w'.disk.mode == w.disk.mode
            && (r.Ok? ==>
                  && prepared && saved && NamedAs(w, given, r.value.name)
                  && Some(r.value.id) == FirstFree(w.accounts, generated)
                  && r.value.enabled && !r.value.controller && r.value.createdAt == now
                  && r.value.home == Managed(r.value.id)
                  && w'.accounts == w.accounts + [r.value]
                  && w'.disk.state == Persisted(1, w'.accounts, w'.owners)
                  && w'.disk.homes == w.disk.homes + {Fold(r.value.id)})
            && (r.Err? ==>
                  && w'.accounts == w.accounts && w'.disk.state == w.disk.state
                  && (forall id :: id in w'.disk.homes ==> id in w.disk.homes))
  {
    Text.TrimSpaceIsExact(given, "");
    Text.TrimSpaceIsExact(given, NameOf(given, |w.accounts|));
    hide Fold, FirstFree, Text.TrimsTo, Text.TrimSpace, Text.Decimal, TooLong;
  }
}
