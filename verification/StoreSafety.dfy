/** What holds of every disk state over every run of store operations, and where it stops holding. */
module StoreSafety {
  import opened Common
  import opened Validation
  import opened Store
  import Text

  // ---- what a disk state must satisfy ----

  /** The account routing-mode.json names exists in state.json and is enabled. */
  predicate Safe(d: Disk) {
    d.mode.Some? && d.mode.value.mode == "account" ==> Routable(d.state.accounts, d.mode.value.accountId)
  }

  /** Opening accepts the state, with the same accounts and owners, and the routing mode. */
  predicate Reopens(d: Disk) {
    && Acceptable(d.state, d.homes) && CanonicalAll(d.state.accounts) == d.state.accounts
    && (d.mode.Some? ==> ValidMode(d.mode.value))
  }

  predicate Good(d: Disk) {
    Safe(d) && Reopens(d)
  }

  /** Memory and disk agree, and every disk state so far was good. */
  predicate Consistent(w: World) {
    && w.disk.state == Persisted(STATE_VERSION, w.accounts, w.owners)
    && w.routingMode == (if w.disk.mode.Some? then w.disk.mode.value else AUTO)
    && Good(w.disk)
    && forall i :: 0 <= i < |w.history| ==> Good(w.history[i])
  }

  // ---- opening ----

  datatype OpenError = BadState(error: StateError) | BadMode | RepairFailed

  /** Open on existing files: validate, then loadRoutingMode, which replaces a preference for a missing account. */
  method Open(d: Disk, repairSaved: bool) returns (result: Result<World, OpenError>)
    ensures Good(d) ==> result == Ok(World(d.state.accounts, d.state.threadOwner, if d.mode.Some? then
              d.mode.value else AUTO, d, []))
    ensures result.Ok? ==> Acceptable(d.state, d.homes)
    ensures result.Ok? && result.value.routingMode.mode == "account" ==>
              Routable(result.value.accounts, result.value.routingMode.accountId)
    ensures result.Err? && result.error.BadState? <==> !Acceptable(d.state, d.homes)
    ensures result == Err(BadMode) <==> Acceptable(d.state, d.homes) && d.mode.Some? && !ValidMode(d.mode.value)
    ensures result == Err(RepairFailed) <==>
              Acceptable(d.state, d.homes) && d.mode.Some? && ValidMode(d.mode.value) && !Safe(d) && !repairSaved
    ensures result.Ok? ==>
              && result.value.accounts == CanonicalAll(d.state.accounts) && result.value.owners == d.state.threadOwner
              && result.value.routingMode == (if d.mode.Some? && Safe(d) then d.mode.value else RoutingMode("auto", ""))
              && result.value.disk ==
                 (if Safe(d) then d else Disk(d.state, Some(RoutingMode("auto", "")), d.homes))
  {
    var checked := ValidatePersistedState(d.state, d.homes);
    if checked.Err? {
      return Err(BadState(checked.error));
    }
    var w := World(checked.value.0, checked.value.1, AUTO, d, []);
    if d.mode.None? {
      return Ok(w);
    }
    if !ValidMode(d.mode.value) {
      return Err(BadMode);
    }
    if d.mode.value.mode == "account" && !Routable(w.accounts, d.mode.value.accountId) {
      w := SaveMode(w, AUTO, repairSaved);
      return if repairSaved then Ok(w) else Err(RepairFailed);
    }
    return Ok(w.(routingMode := d.mode.value));
  }

  /** A store opened on a good disk is consistent again: a crash loses nothing that was committed. */
  lemma OpenedIsConsistent(d: Disk)
    requires Good(d) && d.state.version == STATE_VERSION
    ensures Consistent(World(d.state.accounts, d.state.threadOwner, if d.mode.Some? then d.mode.value else AUTO, d, []))
  {
    hide Good;
  }

  // ---- changing one account at a time ----

  /** Two good files written one after the other: the new mode first, then the state. */
  lemma SaveModeIsConsistent(w: World, mode: RoutingMode, ok: bool)
    requires Consistent(w) && ValidMode(mode)
    requires mode.mode == "account" ==> Routable(w.accounts, mode.accountId)
    ensures Consistent(SaveMode(w, mode, ok))
  {
    hide Acceptable, ValidMode;
  }

  lemma SaveStateIsConsistent(w: World, accounts: seq<Account>, owners: map<string, string>)
    requires Consistent(w)
    requires Acceptable(Persisted(STATE_VERSION, accounts, owners), w.disk.homes) && CanonicalAll(accounts) == accounts
    requires w.routingMode.mode == "account" ==> Routable(accounts, w.routingMode.accountId)
    ensures Consistent(SaveState(w.(accounts := accounts, owners := owners), true))
  {
    hide Acceptable, ValidMode, Routable;
  }

  lemma AppendIsAcceptable(p: Persisted, a: Account, homes: set<string>)
    requires Acceptable(p, homes) && |p.accounts| < MAX_ACCOUNTS
    requires AcceptableAccount(a, homes) && a.id != PRIMARY && !a.controller
    requires forall i :: 0 <= i < |p.accounts| ==> Fold(p.accounts[i].id) != Fold(a.id)
    ensures Acceptable(p.(accounts := p.accounts + [a]), homes)
  {
    hide AcceptableAccount, Fold, ValidThreadID;
    var more := p.accounts + [a];
    var i :| 0 <= i < |p.accounts| && p.accounts[i].id == PRIMARY;
    assert more[i].id == PRIMARY;
    forall t | t in p.threadOwner
      ensures ValidThreadID(t) && Exists(more, p.threadOwner[t])
    {
      var j :| 0 <= j < |p.accounts| && p.accounts[j].id == p.threadOwner[t];
      assert more[j].id == p.threadOwner[t];
    }
  }

  lemma UpdateIsAcceptable(p: Persisted, i: nat, a: Account, homes: set<string>)
    requires Acceptable(p, homes) && i < |p.accounts|
    requires AcceptableAccount(a, homes) && a.id == p.accounts[i].id && a.controller == p.accounts[i].controller
    ensures Acceptable(p.(accounts := p.accounts[i := a]), homes)
  {
    hide AcceptableAccount, Fold, ValidThreadID;
    var updated := p.accounts[i := a];
    forall id | Exists(p.accounts, id)
      ensures Exists(updated, id)
    {
      var j :| 0 <= j < |p.accounts| && p.accounts[j].id == id;
      assert updated[j].id == id;
    }
  }

  lemma ExistsWithout(accounts: seq<Account>, i: nat, id: string)
    requires i < |accounts| && Exists(accounts, id) && id != accounts[i].id
    ensures Exists(accounts[..i] + accounts[i + 1..], id)
  {
    var j :| 0 <= j < |accounts| && accounts[j].id == id;
    var rest := accounts[..i] + accounts[i + 1..];
    assert rest[if j < i then j else j - 1].id == id;
  }

  lemma RemoveIsAcceptable(p: Persisted, i: nat, homes: set<string>)
    requires Acceptable(p, homes) && i < |p.accounts| && p.accounts[i].id != PRIMARY
    ensures Acceptable(Persisted(STATE_VERSION, p.accounts[..i] + p.accounts[i + 1..],
              WithoutOwner(p.threadOwner, p.accounts[i].id)), homes)
  {
    hide AcceptableAccount, Fold, ValidThreadID;
    var rest := p.accounts[..i] + p.accounts[i + 1..];
    ExistsWithout(p.accounts, i, PRIMARY);
    forall t | t in WithoutOwner(p.threadOwner, p.accounts[i].id)
      ensures ValidThreadID(t) && Exists(rest, p.threadOwner[t])
    {
      ExistsWithout(p.accounts, i, p.threadOwner[t]);
    }
    assert forall j :: 0 <= j < |rest| ==> rest[j] == p.accounts[if j < i then j else j + 1];
  }

  lemma MoreHomesAreAcceptable(p: Persisted, homes: set<string>, more: set<string>)
    requires Acceptable(p, homes) && homes <= more
    ensures Acceptable(p, more)
  {
    hide Fold, ValidThreadID, ValidAccountID, ValidLabel;
  }

  lemma FewerHomesAreAcceptable(p: Persisted, homes: set<string>, id: string)
    requires Acceptable(p, homes) && forall i :: 0 <= i < |p.accounts| ==> Fold(p.accounts[i].id) != Fold(id)
    ensures Acceptable(p, homes - {Fold(id)})
  {
    hide Fold, ValidThreadID, ValidAccountID, ValidLabel;
  }

  lemma HomesAreConsistent(w: World, homes: set<string>)
    requires Consistent(w) && Acceptable(w.disk.state, homes)
    ensures Consistent(WithDisk(w, w.disk.(homes := homes)))
  {
    hide Acceptable, ValidMode, Routable;
  }

  // ---- adding ----

  /** What randomID yields: sixteen lower-case hexadecimal digits. */
  predicate RandomID(id: string) {
    |id| == 16 && forall c :: c in id ==> '0' <= c <= '9' || 'a' <= c <= 'f'
  }

  predicate FreshID(accounts: seq<Account>, id: string) {
    forall i :: 0 <= i < |accounts| ==> Fold(accounts[i].id) != Fold(id)
  }

  lemma RandomIDIsValid(id: string)
    requires RandomID(id)
    ensures ValidAccountID(id) && id != PRIMARY
  {
    Text.Utf8LengthAtMost(id);
  }

  lemma NameIsValid(given: string, count: nat)
    requires !TooLong(NameOf(given, count))
    ensures ValidLabel(NameOf(given, count))
  {
    var trimmed := Text.TrimSpace(given);
    if trimmed == "" {
      var name := "Subscription " + Text.Decimal(count + 1);
      assert name[0] == 'S';
      var last := Text.Decimal(count + 1)[|Text.Decimal(count + 1)| - 1];
      assert name[|name| - 1] == last && Text.IsDigit(last);
      assert Text.Trimmed(name);
      Text.TrimmedIsFixed(name);
    } else {
      Text.TrimSpaceIsTrimmed(given);
      Text.TrimmedIsFixed(trimmed);
    }
  }

  /** What the random source gives, until one of its values is not in use. */
  predicate Random(generated: seq<Option<string>>) {
    forall k :: 0 <= k < |generated| && generated[k].Some? ==> RandomID(generated[k].value)
  }

  /** An addition that keeps the store consistent: refused at once, or under a new id and, if committed, with room. */
  predicate AddKeeps(w: World, given: string, generated: seq<Option<string>>, prepared: bool, saved: bool) {
    var free := FirstFree(w.accounts, generated);
    || TooLong(NameOf(given, |w.accounts|))
    || free.None?
    || (FreshID(w.accounts, free.value) && (prepared && saved ==> |w.accounts| < MAX_ACCOUNTS))
  }

  lemma FreshAddIsConsistent(w: World, given: string, id: string, prepared: bool, saved: bool, now: int)
    requires Consistent(w) && now >= 0 && !TooLong(NameOf(given, |w.accounts|))
    requires RandomID(id) && FreshID(w.accounts, id)
    requires prepared && saved ==> |w.accounts| < MAX_ACCOUNTS
    ensures var made := MakeHome(w, id);
            var account := Account(id, NameOf(given, |w.accounts|), Managed(id), true, false, now);
            Consistent(if prepared && saved then SaveState(made.(accounts := w.accounts + [account]), true)
                       else DropHome(made, id))
  {
    hide Consistent, Acceptable, ValidMode, Routable, NameOf, Fold;
    var name := NameOf(given, |w.accounts|);
    Parts(w);
    MoreHomesAreAcceptable(w.disk.state, w.disk.homes, w.disk.homes + {Fold(id)});
    HomesAreConsistent(w, w.disk.homes + {Fold(id)});
    var made := MakeHome(w, id);
    Parts(made);
    if prepared && saved {
      NewAccountIsAcceptable(w, given, id, now);
      var accounts := w.accounts + [Account(id, name, Managed(id), true, false, now)];
      KeepsRoutable(w, accounts);
      SaveStateIsConsistent(made, accounts, w.owners);
      assert made.(accounts := accounts, owners := w.owners) == made.(accounts := accounts);
    } else {
      FewerHomesAreAcceptable(made.disk.state, made.disk.homes, id);
      HomesAreConsistent(made, made.disk.homes - {Fold(id)});
    }
  }

  /** Giving up on an id that differs only in case takes the other account's directory with it. */
  lemma SharedHomeIsLost(w: World, id: string)
    requires Consistent(w) && RandomID(id) && !FreshID(w.accounts, id)
    ensures !Consistent(DropHome(MakeHome(w, id), id))
  {
    Parts(w);
    var lost := DropHome(MakeHome(w, id), id);
    var i :| 0 <= i < |w.accounts| && Fold(w.accounts[i].id) == Fold(id);
    RandomIsNotPrimary(id);
    assert w.accounts[i].id != PRIMARY;
    assert !AcceptableAccount(lost.accounts[i], lost.disk.homes);
    if Consistent(lost) {
      Parts(lost);
    }
  }

  lemma RandomIsNotPrimary(id: string)
    requires RandomID(id)
    ensures Fold(id) != Fold(PRIMARY)
  {
  }

  /** Adding keeps the store consistent exactly when there is room and the identity is new when case is ignored. */
  lemma AddIsConsistent(w: World, given: string, generated: seq<Option<string>>, prepared: bool, saved: bool, now: int)
    requires Consistent(w) && now >= 0 && Random(generated)
    ensures Consistent(AddAccount(w, given, generated, prepared, saved, now).0) <==>
              AddKeeps(w, given, generated, prepared, saved)
  {
    var free := FirstFree(w.accounts, generated);
    if !TooLong(NameOf(given, |w.accounts|)) && free.Some? {
      assert RandomID(free.value);
      hide Consistent, Acceptable, ValidMode, Routable, NameOf, Fold, FreshID, RandomID, Random;
      if AddKeeps(w, given, generated, prepared, saved) {
        FreshAddIsConsistent(w, given, free.value, prepared, saved, now);
      } else if prepared && saved {
        AddReopensExactly(w, given, generated, now);
        ConsistentReopens(AddAccount(w, given, generated, true, true, now).0);
      } else {
        SharedHomeIsLost(w, free.value);
      }
    }
  }

  lemma ConsistentReopens(w: World)
    ensures Consistent(w) ==> Reopens(w.disk)
  {
  }

  lemma Parts(w: World)
    requires Consistent(w)
    ensures w.disk.state == Persisted(STATE_VERSION, w.accounts, w.owners) && Acceptable(w.disk.state, w.disk.homes)
    ensures CanonicalAll(w.accounts) == w.accounts
    ensures w.routingMode.mode == "account" ==> Routable(w.accounts, w.routingMode.accountId)
    ensures ValidMode(w.routingMode)
    ensures forall i :: 0 <= i < |w.accounts| ==> AcceptableAccount(w.accounts[i], w.disk.homes)
    ensures OneController(w.accounts) && DistinctIDs(w.accounts)
  {
  }

  lemma KeepsRoutable(w: World, accounts: seq<Account>)
    requires w.routingMode.mode == "account" ==> Routable(w.accounts, w.routingMode.accountId)
    requires w.accounts <= accounts
    ensures w.routingMode.mode == "account" ==> Routable(accounts, w.routingMode.accountId)
  {
    if w.routingMode.mode == "account" {
      var i :| 0 <= i < |w.accounts| && w.accounts[i].id == w.routingMode.accountId && w.accounts[i].enabled;
      assert accounts[i] == w.accounts[i];
    }
  }

  lemma NewAccountIsAcceptable(w: World, given: string, id: string, now: int)
    requires Consistent(w) && now >= 0 && |w.accounts| < MAX_ACCOUNTS && RandomID(id) && FreshID(w.accounts, id)
    requires !TooLong(NameOf(given, |w.accounts|))
    ensures var accounts := w.accounts + [Account(id, NameOf(given, |w.accounts|), Managed(id), true, false, now)];
            Acceptable(Persisted(STATE_VERSION, accounts, w.owners), w.disk.homes + {Fold(id)}) &&
              CanonicalAll(accounts) == accounts
  {
    hide Consistent, Acceptable, NameOf, Fold;
    Parts(w);
    NameIsValid(given, |w.accounts|);
    RandomIDIsValid(id);
    var a := Account(id, NameOf(given, |w.accounts|), Managed(id), true, false, now);
    MoreHomesAreAcceptable(w.disk.state, w.disk.homes, w.disk.homes + {Fold(id)});
    assert AcceptableAccount(a, w.disk.homes + {Fold(id)}) by {
      hide ValidLabel, ValidAccountID;
    }
    AppendIsAcceptable(w.disk.state, a, w.disk.homes + {Fold(id)});
    assert CanonicalAll(w.accounts + [a]) == CanonicalAll(w.accounts) + [Canonical(a)];
  }

  /**
    AddAccount itself checks neither the limit on accounts nor identities that differ only in case. Its commit can be
    opened again if and only if there was room and the identity is new when case is ignored.
  */
  lemma AddReopensExactly(w: World, given: string, generated: seq<Option<string>>, now: int)
    requires Consistent(w) && now >= 0 && !TooLong(NameOf(given, |w.accounts|))
    requires FirstFree(w.accounts, generated).Some? && RandomID(FirstFree(w.accounts, generated).value)
    ensures Reopens(AddAccount(w, given, generated, true, true, now).0.disk) <==>
              |w.accounts| < MAX_ACCOUNTS && FreshID(w.accounts, FirstFree(w.accounts, generated).value)
  {
    var id := FirstFree(w.accounts, generated).value;
    var a := Account(id, NameOf(given, |w.accounts|), Managed(id), true, false, now);
    var d := AddAccount(w, given, generated, true, true, now).0.disk;
    assert d == Disk(Persisted(STATE_VERSION, w.accounts + [a], w.owners), w.disk.mode, w.disk.homes + {Fold(id)});
    hide Fold, NameOf, ValidMode, AddAccount, FirstFree;
    if |w.accounts| < MAX_ACCOUNTS && FreshID(w.accounts, id) {
      NewAccountIsAcceptable(w, given, id, now);
      Parts(w);
    } else if !FreshID(w.accounts, id) {
      var i :| 0 <= i < |w.accounts| && Fold(w.accounts[i].id) == Fold(id);
      var more := w.accounts + [a];
      assert Fold(more[i].id) == Fold(more[|w.accounts|].id);
    }
  }

  // ---- the other operations ----

  lemma UpdatedIsAcceptable(w: World, i: nat, a: Account)
    requires Consistent(w) && i < |w.accounts|
    requires a.id == w.accounts[i].id && a.controller == w.accounts[i].controller && a.home == w.accounts[i].home
    requires a.createdAt == w.accounts[i].createdAt && ValidLabel(a.name) && (a.controller ==> a.enabled)
    ensures Acceptable(Persisted(STATE_VERSION, w.accounts[i := a], w.owners), w.disk.homes)
    ensures CanonicalAll(w.accounts[i := a]) == w.accounts[i := a]
  {
    Parts(w);
    hide Consistent, Acceptable, Fold, ValidLabel, ValidAccountID;
    assert AcceptableAccount(a, w.disk.homes);
    UpdateIsAcceptable(w.disk.state, i, a, w.disk.homes);
    assert Canonical(w.accounts[i]) == w.accounts[i] by {
      assert CanonicalAll(w.accounts)[i] == w.accounts[i];
    }
    assert CanonicalAll(w.accounts[i := a]) == CanonicalAll(w.accounts)[i := a];
  }

  lemma StaysRoutable(w: World, i: nat, a: Account)
    requires Consistent(w) && i < |w.accounts| && a.id == w.accounts[i].id
    requires w.routingMode.accountId == a.id ==> (w.accounts[i].enabled ==> a.enabled)
    ensures w.routingMode.mode == "account" ==> Routable(w.accounts[i := a], w.routingMode.accountId)
  {
    Parts(w);
    if w.routingMode.mode == "account" {
      var j :| 0 <= j < |w.accounts| && w.accounts[j].id == w.routingMode.accountId && w.accounts[j].enabled;
      assert w.accounts[i := a][j].id == w.routingMode.accountId && w.accounts[i := a][j].enabled;
    }
  }

  lemma UpdateIsConsistent(w: World, id: string, name: Option<string>, enabled: Option<bool>, modeSaved: bool,
                           saved: bool)
    requires Consistent(w)
    ensures Consistent(UpdateAccount(w, id, name, enabled, modeSaved, saved).0)
  {
    var i := IndexOf(w.accounts, id);
    var updated := UpdateAccount(w, id, name, enabled, modeSaved, saved);
    if i < |w.accounts| && (updated.1.Ok? || updated.0 != w) {
      Parts(w);
      var named := if name.Some? then w.accounts[i].(name := Text.TrimSpace(name.value)) else w.accounts[i];
      var a := if enabled.Some? then named.(enabled := enabled.value) else named;
      if name.Some? {
        Text.TrimSpaceIsTrimmed(name.value);
        Text.TrimmedIsFixed(Text.TrimSpace(name.value));
      }
      assert AcceptableAccount(w.accounts[i], w.disk.homes);
      assert ValidLabel(a.name);
      hide Consistent, Acceptable, ValidMode, Routable, AcceptableAccount;
      var leaving := enabled == Some(false) && w.routingMode.accountId == id;
      SaveModeIsConsistent(w, AUTO, true);
      var released := if leaving then SaveMode(w, AUTO, true) else w;
      UpdatedIsAcceptable(released, i, a);
      StaysRoutable(released, i, a);
      SaveStateIsConsistent(released, w.accounts[i := a], w.owners);
      assert released.(accounts := w.accounts[i := a], owners := w.owners) == released.(accounts := w.accounts[i := a]);
    }
  }

  lemma OwnersIsConsistent(w: World, assignments: map<string, string>, saved: bool)
    requires Consistent(w)
    ensures Consistent(SetThreadOwners(w, assignments, saved).0)
  {
    Parts(w);
    hide Consistent, Acceptable, ValidMode, Routable;
    if SetThreadOwners(w, assignments, saved).0 != w {
      MoreOwnersAreAcceptable(w.disk.state, assignments, w.disk.homes);
      SaveStateIsConsistent(w, w.accounts, w.owners + assignments);
    }
  }

  lemma MoreOwnersAreAcceptable(p: Persisted, assignments: map<string, string>, homes: set<string>)
    requires Acceptable(p, homes) && forall t :: t in assignments ==>
               ValidThreadID(t) && Exists(p.accounts, assignments[t])
    ensures Acceptable(p.(threadOwner := p.threadOwner + assignments), homes)
  {
    hide AcceptableAccount, Fold, ValidThreadID;
  }

  lemma RemovedStaysRoutable(accounts: seq<Account>, i: nat, id: string)
    requires i < |accounts| && Routable(accounts, id) && id != accounts[i].id
    ensures Routable(accounts[..i] + accounts[i + 1..], id)
  {
    var rest := accounts[..i] + accounts[i + 1..];
    var j :| 0 <= j < |accounts| && accounts[j].id == id && accounts[j].enabled;
    assert rest[if j < i then j else j - 1] == accounts[j];
  }

  lemma RemovedIsFresh(accounts: seq<Account>, i: nat)
    requires i < |accounts| && DistinctIDs(accounts)
    ensures FreshID(accounts[..i] + accounts[i + 1..], accounts[i].id)
  {
    hide Fold;
    var rest := accounts[..i] + accounts[i + 1..];
    forall j | 0 <= j < |rest|
      ensures Fold(rest[j].id) != Fold(accounts[i].id)
    {
      assert rest[j] == accounts[if j < i then j else j + 1];
    }
  }

  lemma RemovedIsConsistent(w: World, i: nat)
    requires Consistent(w) && i < |w.accounts| && w.accounts[i].id != PRIMARY &&
               w.routingMode.accountId != w.accounts[i].id
    ensures var accounts, owners := w.accounts[..i] + w.accounts[i + 1..], WithoutOwner(w.owners, w.accounts[i].id);
            && Consistent(SaveState(w.(accounts := accounts, owners := owners), true))
            && FreshID(accounts, w.accounts[i].id)
  {
    Parts(w);
    hide Consistent, Acceptable, Fold, ValidMode, Routable, FreshID, DistinctIDs, OneController, AcceptableAccount;
    var accounts, owners := w.accounts[..i] + w.accounts[i + 1..], WithoutOwner(w.owners, w.accounts[i].id);
    RemoveIsAcceptable(w.disk.state, i, w.disk.homes);
    assert CanonicalAll(accounts) == CanonicalAll(w.accounts)[..i] + CanonicalAll(w.accounts)[i + 1..];
    if w.routingMode.mode == "account" {
      RemovedStaysRoutable(w.accounts, i, w.routingMode.accountId);
    }
    SaveStateIsConsistent(w, accounts, owners);
    RemovedIsFresh(w.accounts, i);
  }

  /** The removal passes its checks and commits, so that the directory is to be moved away. */
  predicate RemovalCommits(w: World, id: string, modeSaved: bool, saved: bool) {
    var i := IndexOf(w.accounts, id);
    && '/' !in id && '\\' !in id && !ContainsDots(id)
    && i < |w.accounts| && id != PRIMARY && !w.accounts[i].controller && TrustedHome(w.accounts[i], w.disk.homes)
    && (w.routingMode.accountId == id ==> modeSaved) && saved
  }

  /** What such a removal of account i leaves, with the directory moved away or everything put back. */
  function AfterCommit(w: World, i: nat, quarantined: bool, rollbackSaved: bool): World
    requires i < |w.accounts|
  {
    var id := w.accounts[i].id;
    var released := if w.routingMode.accountId == id then SaveMode(w, AUTO, true) else w;
    var removed := SaveState(
      released.(accounts := w.accounts[..i] + w.accounts[i + 1..], owners := WithoutOwner(w.owners, id)), true);
    if quarantined then DropHome(removed, id)
    else SaveState(removed.(accounts := w.accounts, owners := w.owners), rollbackSaved)
  }

  lemma RemovalEnds(w: World, id: string, modeSaved: bool, saved: bool, quarantined: bool, rollbackSaved: bool,
                    deleted: bool)
    ensures var i := IndexOf(w.accounts, id);
            var after := RemoveAccount(w, id, modeSaved, saved, quarantined, rollbackSaved, deleted).0;
            if RemovalCommits(w, id, modeSaved, saved) then after == AfterCommit(w, i, quarantined, rollbackSaved)
            else after == w || after == SaveMode(w, AUTO, true)
  {
    hide SaveMode, SaveState, DropHome, WithoutOwner, TrustedHome, ContainsDots;
  }

  /** Removing keeps the store consistent unless it committed, could not move the directory and could not roll back. */
  lemma RemoveIsConsistent(w: World, id: string, modeSaved: bool, saved: bool, quarantined: bool, rollbackSaved: bool,
                           deleted: bool)
    requires Consistent(w)
    ensures Consistent(RemoveAccount(w, id, modeSaved, saved, quarantined, rollbackSaved, deleted).0) <==>
              !RemovalCommits(w, id, modeSaved, saved) || quarantined || rollbackSaved
  {
    RemovalEnds(w, id, modeSaved, saved, quarantined, rollbackSaved, deleted);
    hide Consistent, RemoveAccount, SaveMode, AfterCommit;
    if RemovalCommits(w, id, modeSaved, saved) {
      CommittedRemoval(w, IndexOf(w.accounts, id), quarantined, rollbackSaved);
    } else {
      SaveModeIsConsistent(w, AUTO, true);
    }
  }

  lemma CommittedRemoval(w: World, i: nat, quarantined: bool, rollbackSaved: bool)
    requires Consistent(w) && i < |w.accounts| && w.accounts[i].id != PRIMARY
    ensures Consistent(AfterCommit(w, i, quarantined, rollbackSaved)) <==> quarantined || rollbackSaved
  {
    if quarantined || rollbackSaved {
      hide Consistent, Acceptable, ValidMode, Routable, Fold, WithoutOwner;
      var id := w.accounts[i].id;
      SaveModeIsConsistent(w, AUTO, true);
      var released := if w.routingMode.accountId == id then SaveMode(w, AUTO, true) else w;
      var accounts, owners := w.accounts[..i] + w.accounts[i + 1..], WithoutOwner(w.owners, id);
      RemovedIsConsistent(released, i);
      var removed := SaveState(released.(accounts := accounts, owners := owners), true);
      if quarantined {
        Parts(removed);
        FewerHomesAreAcceptable(removed.disk.state, removed.disk.homes, id);
        HomesAreConsistent(removed, removed.disk.homes - {Fold(id)});
      } else {
        Parts(released);
        RollbackIsConsistent(removed, released);
      }
    }
  }

  lemma RollbackIsConsistent(removed: World, released: World)
    requires Consistent(removed) && Consistent(released)
    requires removed.routingMode == released.routingMode && removed.disk.homes == released.disk.homes
    ensures Consistent(SaveState(removed.(accounts := released.accounts, owners := released.owners), true))
  {
    Parts(released);
    hide Consistent, Acceptable, ValidMode, Routable;
    SaveStateIsConsistent(removed, released.accounts, released.owners);
  }

  lemma SetModeIsConsistent(w: World, mode: RoutingMode, saved: bool)
    requires Consistent(w)
    ensures Consistent(SetRoutingMode(w, mode, saved).0)
  {
    if SetRoutingMode(w, mode, saved).0 != w {
      SaveModeIsConsistent(w, mode, saved);
    }
  }

  // ---- runs ----

  datatype Op =
    | Add(given: string, generated: seq<Option<string>>, prepared: bool, saved: bool, now: int)
    | Update(id: string, name: Option<string>, enabled: Option<bool>, modeSaved: bool, saved: bool)
    | SetOwners(assignments: map<string, string>, saved: bool)
    | Remove(id: string, modeSaved: bool, saved: bool, quarantined: bool, rollbackSaved: bool, deleted: bool)
    | SetMode(mode: RoutingMode, saved: bool)

  function Apply(w: World, op: Op): World {
    match op
    case Add(given, generated, prepared, saved, now) => AddAccount(w, given, generated, prepared, saved, now).0
    case Update(id, name, enabled, modeSaved, saved) => UpdateAccount(w, id, name, enabled, modeSaved, saved).0
    case SetOwners(assignments, saved) => SetThreadOwners(w, assignments, saved).0
    case Remove(id, modeSaved, saved, quarantined, rollbackSaved, deleted) =>
      RemoveAccount(w, id, modeSaved, saved, quarantined, rollbackSaved, deleted).0
    case SetMode(mode, saved) => SetRoutingMode(w, mode, saved).0
  }

  /** What the clock and the random source give. */
  predicate Sourced(op: Op) {
    op.Add? ==> op.now >= 0 && Random(op.generated)
  }

  /** Additions with room under new identities, and no committed removal that can be neither finished nor undone. */
  predicate Keeps(w: World, op: Op) {
    match op
    case Add(given, generated, prepared, saved, _) => AddKeeps(w, given, generated, prepared, saved)
    case Remove(id, modeSaved, saved, quarantined, rollbackSaved, _) =>
      !RemovalCommits(w, id, modeSaved, saved) || quarantined || rollbackSaved
    case _ => true
  }

  lemma ApplyIsConsistent(w: World, op: Op)
    requires Consistent(w) && Sourced(op)
    ensures Consistent(Apply(w, op)) <==> Keeps(w, op)
  {
    hide Consistent, FreshID, Random, AddKeeps, RemovalCommits;
    match op
    case Add(given, generated, prepared, saved, now) => AddIsConsistent(w, given, generated, prepared, saved, now);
    case Update(id, name, enabled, modeSaved, saved) => UpdateIsConsistent(w, id, name, enabled, modeSaved, saved);
    case SetOwners(assignments, saved) => OwnersIsConsistent(w, assignments, saved);
    case Remove(id, modeSaved, saved, quarantined, rollbackSaved, deleted) =>
      RemoveIsConsistent(w, id, modeSaved, saved, quarantined, rollbackSaved, deleted);
    case SetMode(mode, saved) => SetModeIsConsistent(w, mode, saved);
  }

  function Run(w: World, ops: seq<Op>): World {
    if ops == [] then w else Apply(Run(w, ops[..|ops| - 1]), ops[|ops| - 1])
  }

  /** Every operation of the run kept the store consistent. */
  ghost predicate AllKeep(w: World, ops: seq<Op>) {
    forall k {:trigger ops[..k]} :: 0 <= k < |ops| ==> Keeps(Run(w, ops[..k]), ops[k])
  }

  predicate AllSourced(ops: seq<Op>) {
    forall k :: 0 <= k < |ops| ==> Sourced(ops[k])
  }

  lemma AllKeepInFront(w: World, ops: seq<Op>)
    requires ops != []
    ensures AllKeep(w, ops) <==> AllKeep(w, ops[..|ops| - 1]) && Keeps(Run(w, ops[..|ops| - 1]), ops[|ops| - 1])
  {
    hide Keeps;
    var front := ops[..|ops| - 1];
    assert forall k :: 0 <= k <= |front| ==> front[..k] == ops[..k];
    if AllKeep(w, front) && Keeps(Run(w, front), ops[|ops| - 1]) {
      forall k | 0 <= k < |ops|
        ensures Keeps(Run(w, ops[..k]), ops[k])
      {
        if k < |front| {
          assert front[..k] == ops[..k] && front[k] == ops[k];
        }
      }
    }
    if AllKeep(w, ops) {
      forall k | 0 <= k < |front|
        ensures Keeps(Run(w, front[..k]), front[k])
      {
        assert front[..k] == ops[..k] && front[k] == ops[k];
      }
    }
  }

  /** The store was consistent after each operation of the run. */
  ghost predicate ConsistentThroughout(w: World, ops: seq<Op>) {
    Consistent(Run(w, ops)) && (ops == [] || ConsistentThroughout(w, ops[..|ops| - 1]))
  }

  /** Whatever writes fail, a run keeps the store consistent throughout if and only if each of its operations does. */
  lemma {:induction false} RunIsConsistentExactly(w: World, ops: seq<Op>)
    requires Consistent(w) && AllSourced(ops)
    ensures ConsistentThroughout(w, ops) <==> AllKeep(w, ops)
  {
    hide Apply, Keeps, Sourced, Consistent, AllKeep;
    if ops == [] {
      NothingToKeep(w);
    } else {
      var front := ops[..|ops| - 1];
      RunIsConsistentExactly(w, front);
      AllKeepInFront(w, ops);
      if ConsistentThroughout(w, front) {
        ApplyIsConsistent(Run(w, front), ops[|ops| - 1]);
      }
    }
  }

  lemma NothingToKeep(w: World)
    ensures AllKeep(w, [])
  {
  }

  /**
    Two-file crash safety, and every commit reopens: whatever writes fail, at every disk state such a run goes through
    the routing mode names an enabled account, and opening accepts the state with the same accounts, owners and mode.
  */
  lemma EveryDiskStateIsGood(w: World, ops: seq<Op>)
    requires Consistent(w) && AllSourced(ops) && AllKeep(w, ops)
    ensures Consistent(Run(w, ops))
    ensures forall d :: d in Run(w, ops).history ==> Safe(d) && Reopens(d)
  {
    hide AllKeep, Consistent;
    RunIsConsistentExactly(w, ops);
    HistoryIsGood(Run(w, ops));
  }

  lemma HistoryIsGood(w: World)
    requires Consistent(w)
    ensures forall d :: d in w.history ==> Safe(d) && Reopens(d)
  {
  }

  /** The store a first start creates. */
  function FirstStart(now: int): World {
    var primary := Account(PRIMARY, "Primary", PrimaryHome, true, true, now);
    var disk := Disk(Persisted(STATE_VERSION, [primary], map[]), None, {});
    World([primary], map[], AUTO, disk, [disk])
  }

  lemma FirstStartIsConsistent(now: int)
    requires now >= 0
    ensures Consistent(FirstStart(now))
  {
    var w := FirstStart(now);
    Text.Utf8LengthAtMost(PRIMARY);
    Text.Utf8LengthAtMost("Primary");
    Text.TrimmedIsFixed("Primary");
    assert ValidAccountID(PRIMARY);
    assert w.accounts[0].id == PRIMARY;
    assert CanonicalAll(w.accounts) == w.accounts;
  }

  /**
    The exception is real: when neither the move nor the rollback's save succeeds, memory still has an account the
    disk has lost, and choosing that account next leaves a routing mode that names nobody.
  */
  lemma FailedRollbackBreaksSafety(w: World, id: string)
    requires Consistent(w) && Routable(w.accounts, id) && id != PRIMARY && ValidMode(RoutingMode("account", id))
    ensures var after := RemoveAccount(w, id, true, true, false, false, false).0;
            var chosen := SetRoutingMode(after, RoutingMode("account", id), true).0;
            !Safe(chosen.disk)
  {
    Parts(w);
    var i := IndexOf(w.accounts, id);
    assert i < |w.accounts|;
    assert AcceptableAccount(w.accounts[i], w.disk.homes);
    assert !ContainsDots(id) && '/' !in id && '\\' !in id;
    var released := if w.routingMode.accountId == id then SaveMode(w, AUTO, true) else w;
    var rest := w.accounts[..i] + w.accounts[i + 1..];
    var after := RemoveAccount(w, id, true, true, false, false, false).0;
    assert after.accounts == w.accounts && after.disk.state.accounts == rest;
    forall j | 0 <= j < |rest|
      ensures rest[j].id != id
    {
      assert rest[j] == w.accounts[if j < i then j else j + 1];
      assert Fold(w.accounts[if j < i then j else j + 1].id) != Fold(w.accounts[i].id);
    }
  }
}
