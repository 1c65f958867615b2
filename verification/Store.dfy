/**
  The durable store: internal/state/store.go and internal/state/routing_mode.go. Memory is kept beside two files that
  are each replaced atomically: a write that fails leaves the old contents. Whether each write succeeds is a parameter
  of the operation, and `history` collects every state the disk goes through, so a crash may leave any of them.
*/
module Store {
  import opened Common
  import opened Validation
  import Text

  datatype RoutingMode = RoutingMode(mode: string, accountId: string)

  const AUTO := RoutingMode("auto", "")

  /** state.json, routing-mode.json when it is there, and the accounts (folded) whose home directory exists. */
  datatype Disk = Disk(state: Persisted, mode: Option<RoutingMode>, homes: set<string>)

  datatype World = World(
    accounts: seq<Account>, owners: map<string, string>, routingMode: RoutingMode, disk: Disk, history: seq<Disk>)

  datatype StoreError =
    | InvalidName | NoIdentity | HomeFailed | SaveFailed | ControllerMustStay | NotFound | InvalidAssignment
    | InvalidIdentity | NotRemovable | Untrusted | QuarantineFailed | LeftoverFiles | InvalidMode | NotRoutable

  // ---- pieces ----

  predicate ContainsDots(s: string) {
    exists i :: 0 <= i < |s| - 1 && s[i] == '.' && s[i + 1] == '.'
  }

  /** RoutingMode.Validate */
  predicate ValidMode(m: RoutingMode) {
    || m == AUTO
    || (m.mode == "account" && m.accountId != "" && Text.Utf8Length(m.accountId) <= MAX_ACCOUNT_ID &&
        '/' !in m.accountId && '\\' !in m.accountId && '\0' !in m.accountId && !ContainsDots(m.accountId))
  }

  function IndexOf(accounts: seq<Account>, id: string): (i: nat)
    ensures i <= |accounts|
    ensures i < |accounts| ==> accounts[i].id == id
    ensures forall j :: 0 <= j < i ==> accounts[j].id != id
  {
    if accounts == [] || accounts[0].id == id then 0 else 1 + IndexOf(accounts[1..], id)
  }

  predicate Routable(accounts: seq<Account>, id: string) {
    exists i :: 0 <= i < |accounts| && accounts[i].id == id && accounts[i].enabled
  }

  /** The first of the drawn identities not in use; None stands for a failing random source. */
  function FreeAmong(accounts: seq<Account>, drawn: seq<Option<string>>): (id: Option<string>)
    ensures id.Some? ==> Some(id.value) in drawn && !Exists(accounts, id.value)
  {
    if drawn == [] || drawn[0].None? then None
    else if Exists(accounts, drawn[0].value) then FreeAmong(accounts, drawn[1..])
    else drawn[0]
  }

  /** Identities are drawn up to this many times. */
  const ATTEMPTS := 8

  function Drawn(generated: seq<Option<string>>): seq<Option<string>> {
    if |generated| > ATTEMPTS then generated[..ATTEMPTS] else generated
  }

  function FirstFree(accounts: seq<Account>, generated: seq<Option<string>>): (id: Option<string>)
    ensures id.Some? ==> Some(id.value) in generated && !Exists(accounts, id.value)
  {
    FreeAmong(accounts, Drawn(generated))
  }

  function WithDisk(w: World, disk: Disk): World {
    w.(disk := disk, history := w.history + [disk])
  }

  /** saveLocked */
  function SaveState(w: World, ok: bool): World {
    if ok then WithDisk(w, w.disk.(state := Persisted(STATE_VERSION, w.accounts, w.owners))) else w
  }

  /** saveRoutingModeLocked */
  function SaveMode(w: World, mode: RoutingMode, ok: bool): World {
    if ok then WithDisk(w.(routingMode := mode), w.disk.(mode := Some(mode))) else w
  }

  function MakeHome(w: World, id: string): World {
    WithDisk(w, w.disk.(homes := w.disk.homes + {Fold(id)}))
  }

  function DropHome(w: World, id: string): World {
    WithDisk(w, w.disk.(homes := w.disk.homes - {Fold(id)}))
  }

  // ---- the operations ----

  function NameOf(given: string, count: nat): string {
    var trimmed := Text.TrimSpace(given);
    if trimmed == "" then "Subscription " + Text.Decimal(count + 1) else trimmed
  }

  predicate TooLong(name: string) {
    Text.Utf8Length(name) > MAX_ACCOUNT_LABEL || '\0' in name
  }

  function AddAccount(w: World, given: string, generated: seq<Option<string>>, prepared: bool, saved: bool, now: int)
    : (World, Result<Account, StoreError>)
  {
    var name := NameOf(given, |w.accounts|);
    var free := FirstFree(w.accounts, generated);
    if TooLong(name) then (w, Err(InvalidName))
    else if free.None? then (w, Err(NoIdentity))
    else
      var id := free.value;
      var made := MakeHome(w, id);
      if !prepared then (DropHome(made, id), Err(HomeFailed))
      else
        var account := Account(id, name, Managed(id), true, false, now);
        if saved then (SaveState(made.(accounts := w.accounts + [account]), true), Ok(account))
        else (DropHome(made, id), Err(SaveFailed))
  }

  function UpdateAccount(w: World, id: string, name: Option<string>, enabled: Option<bool>, modeSaved: bool,
                         saved: bool)
    : (World, Result<Account, StoreError>)
  {
    var i := IndexOf(w.accounts, id);
    if i == |w.accounts| then (w, Err(NotFound))
    else if enabled == Some(false) && w.accounts[i].controller then (w, Err(ControllerMustStay))
    else if name.Some? && (Text.TrimSpace(name.value) == "" || TooLong(Text.TrimSpace(name.value))) then
      (w, Err(InvalidName))
    else
      var named := if name.Some? then w.accounts[i].(name := Text.TrimSpace(name.value)) else w.accounts[i];
      var account := if enabled.Some? then named.(enabled := enabled.value) else named;
      var leaving := enabled == Some(false) && w.routingMode.accountId == id;
      if leaving && !modeSaved then (w, Err(SaveFailed))
      else
        var released := if leaving then SaveMode(w, AUTO, true) else w;
        if saved then (SaveState(released.(accounts := w.accounts[i := account]), true), Ok(account))
        else (released, Err(SaveFailed))
  }

  function SetThreadOwners(w: World, assignments: map<string, string>, saved: bool): (World, Option<StoreError>) {
    if exists t :: t in assignments && !(ValidThreadID(t) && Exists(w.accounts, assignments[t])) then
      (w, Some(InvalidAssignment))
    else if forall t :: t in assignments ==> t in w.owners && w.owners[t] == assignments[t] then (w, None)
    else if saved then (SaveState(w.(owners := w.owners + assignments), true), None)
    else (w, Some(SaveFailed))
  }

  function WithoutOwner(owners: map<string, string>, id: string): map<string, string> {
    map t | t in owners && owners[t] != id :: owners[t]
  }

  /** quarantined: the directory was renamed away; deleted: its files could be deleted too. */
  function RemoveAccount(w: World, id: string, modeSaved: bool, saved: bool, quarantined: bool, rollbackSaved: bool,
                         deleted: bool)
    : (World, Option<StoreError>)
  {
    var i := IndexOf(w.accounts, id);
    if '/' in id || '\\' in id || ContainsDots(id) then (w, Some(InvalidIdentity))
    else if i == |w.accounts| then (w, Some(NotFound))
    else if id == PRIMARY || w.accounts[i].controller then (w, Some(NotRemovable))
    else if !TrustedHome(w.accounts[i], w.disk.homes) then (w, Some(Untrusted))
    else if w.routingMode.accountId == id && !modeSaved then (w, Some(SaveFailed))
    else
      // Auto is committed first: a crash between the two files leaves no preference for a missing account
      var released := if w.routingMode.accountId == id then SaveMode(w, AUTO, true) else w;
      if !saved then (released, Some(SaveFailed))
      else
        var removed := SaveState(
          released.(accounts := w.accounts[..i] + w.accounts[i + 1..], owners := WithoutOwner(w.owners, id)), true);
        if !quarantined then
          (SaveState(removed.(accounts := w.accounts, owners := w.owners), rollbackSaved), Some(QuarantineFailed))
        else (DropHome(removed, id), if deleted then None else Some(LeftoverFiles))
  }

  function SetRoutingMode(w: World, mode: RoutingMode, saved: bool): (World, Option<StoreError>) {
    if !ValidMode(mode) then (w, Some(InvalidMode))
    else if mode.mode == "account" && !Routable(w.accounts, mode.accountId) then (w, Some(NotRoutable))
    else (SaveMode(w, mode, saved), if saved then None else Some(SaveFailed))
  }

  // ---- the object ----

  class Store {
    var accounts: seq<Account>
    var owners: map<string, string>
    var routingMode: RoutingMode
    var disk: Disk
    var history: seq<Disk>

    function Value(): World
      reads this
    {
      World(accounts, owners, routingMode, disk, history)
    }

    constructor (w: World)
      ensures Value() == w
    {
      accounts, owners, routingMode, disk, history := w.accounts, w.owners, w.routingMode, w.disk, w.history;
    }

    method SaveLocked(ok: bool)
      modifies this
      ensures Value() == SaveState(old(Value()), ok)
    {
      if ok {
        disk := disk.(state := Persisted(STATE_VERSION, accounts, owners));
        history := history + [disk];
      }
    }

    method SaveRoutingModeLocked(mode: RoutingMode, ok: bool)
      modifies this
      ensures Value() == SaveMode(old(Value()), mode, ok)
    {
      if ok {
        disk := disk.(mode := Some(mode));
        history := history + [disk];
        routingMode := mode;
      }
    }

    method ChangeHomes(homes: set<string>)
      modifies this
      ensures Value() == WithDisk(old(Value()), old(disk).(homes := homes))
    {
      disk := disk.(homes := homes);
      history := history + [disk];
    }

    method GenerateID(generated: seq<Option<string>>) returns (id: Option<string>)
      ensures id == FirstFree(accounts, generated)
    {
      var attempts := 0;
      ghost var drawn := Drawn(generated);
      assert drawn[0..] == drawn;
      while attempts < ATTEMPTS && attempts < |generated|
        invariant attempts <= |drawn|
        invariant FreeAmong(accounts, drawn) == FreeAmong(accounts, drawn[attempts..])
      {
        assert drawn[attempts..][1..] == drawn[attempts + 1..];
        if generated[attempts].None? {
          return None;
        }
        if !Exists(accounts, generated[attempts].value) {
          return generated[attempts];
        }
        attempts := attempts + 1;
      }
      return None;
    }

    method Add(given: string, generated: seq<Option<string>>, prepared: bool, saved: bool, now: int)
      returns (result: Result<Account, StoreError>)
      modifies this
      ensures (Value(), result) == old(AddAccount(Value(), given, generated, prepared, saved, now))
    {
      var name := Text.TrimSpace(given);
      if name == "" {
        name := "Subscription " + Text.Decimal(|accounts| + 1);
      }
      if TooLong(name) {
        return Err(InvalidName);
      }
      var free := GenerateID(generated);
      if free.None? {
        return Err(NoIdentity);
      }
      var id := free.value;
      ChangeHomes(disk.homes + {Fold(id)});
      if !prepared {
        ChangeHomes(disk.homes - {Fold(id)});
        return Err(HomeFailed);
      }
      var account := Account(id, name, Managed(id), true, false, now);
      var previous := accounts;
      accounts := accounts + [account];
      SaveLocked(saved);
      if !saved {
        accounts := previous;
        ChangeHomes(disk.homes - {Fold(id)});
        return Err(SaveFailed);
      }
      return Ok(account);
    }

    method Update(id: string, name: Option<string>, enabled: Option<bool>, modeSaved: bool, saved: bool)
      returns (result: Result<Account, StoreError>)
      modifies this
      ensures (Value(), result) == old(UpdateAccount(Value(), id, name, enabled, modeSaved, saved))
    {
      var index := IndexOf(accounts, id);
      if index == |accounts| {
        return Err(NotFound);
      }
      var previous := accounts;
      if enabled == Some(false) && accounts[index].controller {
        return Err(ControllerMustStay);
      }
      if name.Some? {
        var trimmed := Text.TrimSpace(name.value);
        if trimmed == "" || TooLong(trimmed) {
          return Err(InvalidName);
        }
        accounts := accounts[index := accounts[index].(name := trimmed)];
      }
      if enabled.Some? {
        if !enabled.value && routingMode.accountId == id {
          SaveRoutingModeLocked(AUTO, modeSaved);
          if !modeSaved {
            accounts := previous;
            return Err(SaveFailed);
          }
        }
        accounts := accounts[index := accounts[index].(enabled := enabled.value)];
      }
      assert accounts == previous[index := accounts[index]];
      SaveLocked(saved);
      if !saved {
        accounts := previous;
        return Err(SaveFailed);
      }
      return Ok(accounts[index]);
    }

    method SetOwners(assignments: map<string, string>, saved: bool) returns (error: Option<StoreError>)
      modifies this
      ensures (Value(), error) == old(SetThreadOwners(Value(), assignments, saved))
      ensures error.None? ==>
                && (forall t :: t in assignments ==> t in owners && owners[t] == assignments[t])
                && (forall t :: t !in assignments ==>
                      (t in owners <==> t in old(owners)) && (t in owners ==> owners[t] == old(owners)[t]))
      ensures error.Some? ==> owners == old(owners) && disk == old(disk)
    {
      if exists t :: t in assignments && !(ValidThreadID(t) && Exists(accounts, assignments[t])) {
        return Some(InvalidAssignment);
      }
      var previous := owners;
      if forall t :: t in assignments ==> t in owners && owners[t] == assignments[t] {
        return None;
      }
      owners := owners + assignments;
      SaveLocked(saved);
      if !saved {
        owners := previous;
        return Some(SaveFailed);
      }
      return None;
    }

    method Remove(id: string, modeSaved: bool, saved: bool, quarantined: bool, rollbackSaved: bool, deleted: bool)
      returns (error: Option<StoreError>)
      modifies this
      ensures (Value(), error) == old(RemoveAccount(Value(), id, modeSaved, saved, quarantined, rollbackSaved, deleted))
    {
      if '/' in id || '\\' in id || ContainsDots(id) {
        return Some(InvalidIdentity);
      }
      var index := IndexOf(accounts, id);
      if index == |accounts| {
        return Some(NotFound);
      }
      if id == PRIMARY || accounts[index].controller {
        return Some(NotRemovable);
      }
      if !TrustedHome(accounts[index], disk.homes) {
        return Some(Untrusted);
      }
      if routingMode.accountId == id {
        SaveRoutingModeLocked(AUTO, modeSaved);
        if !modeSaved {
          return Some(SaveFailed);
        }
      }
      var previousAccounts, previousOwners := accounts, owners;
      accounts := accounts[..index] + accounts[index + 1..];
      owners := WithoutOwner(owners, id);
      SaveLocked(saved);
      if !saved {
        accounts, owners := previousAccounts, previousOwners;
        return Some(SaveFailed);
      }
      if !quarantined {
        accounts, owners := previousAccounts, previousOwners;
        SaveLocked(rollbackSaved);
        return Some(QuarantineFailed);
      }
      ChangeHomes(disk.homes - {Fold(id)});
      return if deleted then None else Some(LeftoverFiles);
    }

    method SetMode(mode: RoutingMode, saved: bool) returns (error: Option<StoreError>)
      modifies this
      ensures (Value(), error) == old(SetRoutingMode(Value(), mode, saved))
      ensures error.None? ==> routingMode == mode && disk.mode == Some(mode)
      ensures error.Some? ==> routingMode == old(routingMode) && disk == old(disk)
    {
      if !ValidMode(mode) {
        return Some(InvalidMode);
      }
      if mode.mode == "account" && !Routable(accounts, mode.accountId) {
        return Some(NotRoutable);
      }
      SaveRoutingModeLocked(mode, saved);
      return if saved then None else Some(SaveFailed);
    }
  }
}
