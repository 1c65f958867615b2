/**
  What a persisted state must satisfy to be opened again: internal/state/validation.go. The files' JSON is taken as
  already decoded. Paths are reduced to what the checks tell apart: the configured primary home, the managed home of
  an account identity, or any other place. Identities name directories on a file system that ignores case.
*/
module Validation {
  import opened Common
  import Text

  datatype Home = PrimaryHome | Managed(id: string) | Elsewhere(path: string)

  datatype Account = Account(id: string, name: string, home: Home, enabled: bool, controller: bool, createdAt: int)

  datatype Persisted = Persisted(version: int, accounts: seq<Account>, threadOwner: map<string, string>)

  datatype StateError =
    | UnsupportedVersion | NoAccounts | TooManyAccounts | InvalidAccountID | DuplicateAccountID | InvalidLabel
    | NegativeCreation | DisabledController | PrimaryNotController | WrongPrimaryHome | UntrustedHome
    | PrimaryCount | ControllerCount | SharedHome | InvalidThreadID | UnknownOwner

  const STATE_VERSION := 1
  const MAX_ACCOUNTS := 64
  const MAX_ACCOUNT_ID := 64
  const MAX_ACCOUNT_LABEL := 256
  const MAX_THREAD_ID := 4096
  const PRIMARY := "primary"

  function FoldChar(c: char): char {
    if 'A' <= c <= 'Z' then (c as int + 32) as char else c
  }

  /** strings.ToLower on the characters an identity may hold. */
  function Fold(s: string): (t: string)
    ensures |t| == |s| && forall i :: 0 <= i < |s| ==> t[i] == FoldChar(s[i])
  {
    seq(|s|, i requires 0 <= i < |s| => FoldChar(s[i]))
  }

  predicate ValidAccountID(id: string) {
    && id != "" && Text.Utf8Length(id) <= MAX_ACCOUNT_ID
    && forall c :: c in id ==> 'a' <= c <= 'z' || 'A' <= c <= 'Z' || '0' <= c <= '9' || c == '-' || c == '_'
  }

  predicate ValidThreadID(id: string) {
    id != "" && Text.TrimSpace(id) == id && Text.Utf8Length(id) <= MAX_THREAD_ID && '\0' !in id
  }

  predicate ValidLabel(name: string) {
    name != "" && Text.TrimSpace(name) == name && Text.Utf8Length(name) <= MAX_ACCOUNT_LABEL && '\0' !in name
  }

  predicate SamePath(a: Home, b: Home) {
    match (a, b)
    case (PrimaryHome, PrimaryHome) => true
    case (Managed(x), Managed(y)) => Fold(x) == Fold(y)
    case (Elsewhere(x), Elsewhere(y)) => x == y
    case _ => false
  }

  /** validateSecondaryHome; homes holds the folded identities whose managed directory is there and trusted. */
  predicate TrustedHome(a: Account, homes: set<string>) {
    SamePath(a.home, Managed(a.id)) && Fold(a.id) in homes
  }

  function Canonical(a: Account): Account {
    a.(home := if a.id == PRIMARY then PrimaryHome else Managed(a.id))
  }

  function CanonicalAll(accounts: seq<Account>): (canonical: seq<Account>)
    ensures |canonical| == |accounts| && forall i :: 0 <= i < |accounts| ==> canonical[i] == Canonical(accounts[i])
  {
    seq(|accounts|, i requires 0 <= i < |accounts| => Canonical(accounts[i]))
  }

  // ---- what the checks amount to ----

  predicate AcceptableAccount(a: Account, homes: set<string>) {
    && ValidAccountID(a.id) && ValidLabel(a.name) && a.createdAt >= 0
    && (a.controller ==> a.enabled)
    && (if a.id == PRIMARY then a.controller && SamePath(a.home, PrimaryHome) else TrustedHome(a, homes))
  }

  predicate DistinctIDs(accounts: seq<Account>) {
    forall i, j :: 0 <= i < j < |accounts| ==> Fold(accounts[i].id) != Fold(accounts[j].id)
  }

  predicate Exists(accounts: seq<Account>, id: string) {
    exists i :: 0 <= i < |accounts| && accounts[i].id == id
  }

  /** One primary account, and it is the one controller. */
  predicate OneController(accounts: seq<Account>) {
    Exists(accounts, PRIMARY) && forall i :: 0 <= i < |accounts| ==>
      (accounts[i].controller <==> accounts[i].id == PRIMARY)
  }

  predicate AcceptableOwners(owners: map<string, string>, accounts: seq<Account>) {
    forall t :: t in owners ==> ValidThreadID(t) && Exists(accounts, owners[t])
  }

  /** A state that opens. */
  predicate Acceptable(p: Persisted, homes: set<string>) {
    && p.version == STATE_VERSION && |p.accounts| <= MAX_ACCOUNTS
    && (forall i :: 0 <= i < |p.accounts| ==> AcceptableAccount(p.accounts[i], homes))
    && DistinctIDs(p.accounts) && OneController(p.accounts)
    && AcceptableOwners(p.threadOwner, p.accounts)
  }

  // ---- the checks ----

  method CheckAccount(a: Account, homes: set<string>) returns (error: Option<StateError>)
    ensures error.None? <==> ValidLabel(a.name) && a.createdAt >= 0 && (a.controller ==> a.enabled) &&
                             (if a.id == PRIMARY then a.controller && SamePath(a.home, PrimaryHome)
                               else TrustedHome(a, homes))
  {
    if Text.TrimSpace(a.name) == "" || a.name != Text.TrimSpace(a.name) {
      return Some(InvalidLabel);
    }
    if Text.Utf8Length(a.name) > MAX_ACCOUNT_LABEL || '\0' in a.name {
      return Some(InvalidLabel);
    }
    if a.createdAt < 0 {
      return Some(NegativeCreation);
    }
    if a.controller && !a.enabled {
      return Some(DisabledController);
    }
    if a.id == PRIMARY {
      if !a.controller {
        return Some(PrimaryNotController);
      }
      if !SamePath(a.home, PrimaryHome) {
        return Some(WrongPrimaryHome);
      }
    } else if !TrustedHome(a, homes) {
      return Some(UntrustedHome);
    }
    return None;
  }

  function Controllers(accounts: seq<Account>): nat {
    if accounts == [] then 0
    else Controllers(accounts[..|accounts| - 1]) + (if accounts[|accounts| - 1].controller then 1 else 0)
  }

  function Primaries(accounts: seq<Account>): nat {
    if accounts == [] then 0
    else Primaries(accounts[..|accounts| - 1]) + (if accounts[|accounts| - 1].id == PRIMARY then 1 else 0)
  }

  method CheckOwners(owners: map<string, string>, accounts: seq<Account>) returns (error: Option<StateError>)
    ensures error.None? <==> AcceptableOwners(owners, accounts)
  {
    var unvisited := owners.Keys;
    while unvisited != {}
      invariant unvisited <= owners.Keys
      invariant forall t :: t in owners && t !in unvisited ==> ValidThreadID(t) && Exists(accounts, owners[t])
      decreases |unvisited|
    {
      var t :| t in unvisited;
      unvisited := unvisited - {t};
      if !ValidThreadID(t) {
        return Some(InvalidThreadID);
      }
      if !Exists(accounts, owners[t]) {
        return Some(UnknownOwner);
      }
    }
    return None;
  }

  /** The loop over the accounts, with the two counters. */
  method CheckAccounts(accounts: seq<Account>, homes: set<string>) returns (error: Option<StateError>)
    ensures error.None? <==>
              && (forall i :: 0 <= i < |accounts| ==> AcceptableAccount(accounts[i], homes))
              && DistinctIDs(accounts) && Primaries(accounts) == 1 && Controllers(accounts) == 1
  {
    hide AcceptableAccount, ValidAccountID, Fold, DistinctIDs;
    var ids: set<string>, controllerCount, primaryCount := {}, 0, 0;
    NothingChecked(accounts);
    for k := 0 to |accounts|
      invariant forall i :: 0 <= i < k ==> AcceptableAccount(accounts[i], homes)
      invariant SeenIDs(accounts[..k], ids)
      invariant controllerCount == Controllers(accounts[..k]) && primaryCount == Primaries(accounts[..k])
    {
      var account := accounts[k];
      assert accounts[..k + 1][..k] == accounts[..k] && accounts[..k + 1] == accounts[..k] + [account];
      AccountParts(account, homes);
      if !ValidAccountID(account.id) {
        return Some(InvalidAccountID);
      }
      var folded := Fold(account.id);
      SeeOneMore(accounts, k, ids);
      if folded in ids {
        return Some(DuplicateAccountID);
      }
      ids := ids + {folded};
      var broken := CheckAccount(account, homes);
      if broken.Some? {
        return broken;
      }
      controllerCount := controllerCount + (if account.controller then 1 else 0);
      primaryCount := primaryCount + (if account.id == PRIMARY then 1 else 0);
    }
    assert accounts[..|accounts|] == accounts;
    if primaryCount != 1 {
      return Some(PrimaryCount);
    }
    if controllerCount != 1 {
      return Some(ControllerCount);
    }
    return None;
  }

  ghost predicate SeenIDs(accounts: seq<Account>, ids: set<string>) {
    DistinctIDs(accounts) && ids == set i | 0 <= i < |accounts| :: Fold(accounts[i].id)
  }

  lemma NothingChecked(accounts: seq<Account>)
    ensures SeenIDs(accounts[..0], {})
  {
  }

  lemma SeeOneMore(accounts: seq<Account>, k: nat, ids: set<string>)
    requires k < |accounts| && SeenIDs(accounts[..k], ids)
    ensures Fold(accounts[k].id) in ids ==> !DistinctIDs(accounts)
    ensures Fold(accounts[k].id) !in ids ==> SeenIDs(accounts[..k] + [accounts[k]], ids + {Fold(accounts[k].id)})
  {
    hide Fold;
    var front, more := accounts[..k], accounts[..k] + [accounts[k]];
    if Fold(accounts[k].id) in ids {
      var i :| 0 <= i < k && Fold(front[i].id) == Fold(accounts[k].id);
      assert accounts[i] == front[i];
    } else {
      forall i | 0 <= i < k
        ensures Fold(front[i].id) != Fold(accounts[k].id)
      {
      }
      forall x
        ensures x in ids + {Fold(accounts[k].id)} <==> x in set i | 0 <= i < |more| :: Fold(more[i].id)
      {
        if x in ids {
          var i :| 0 <= i < k && Fold(front[i].id) == x;
          assert more[i] == front[i];
        }
        assert more[k] == accounts[k];
      }
    }
  }

  lemma AccountParts(a: Account, homes: set<string>)
    ensures AcceptableAccount(a, homes) <==>
              ValidAccountID(a.id) && ValidLabel(a.name) && a.createdAt >= 0 && (a.controller ==> a.enabled) &&
              (if a.id == PRIMARY then a.controller && SamePath(a.home, PrimaryHome) else TrustedHome(a, homes))
  {
  }

  lemma {:induction false} CountersMean(accounts: seq<Account>)
    requires forall i :: 0 <= i < |accounts| && accounts[i].id == PRIMARY ==> accounts[i].controller
    requires DistinctIDs(accounts)
    ensures Primaries(accounts) == (if Exists(accounts, PRIMARY) then 1 else 0)
    ensures Controllers(accounts) >= Primaries(accounts)
    ensures Controllers(accounts) == Primaries(accounts) <==>
              forall i :: 0 <= i < |accounts| && accounts[i].controller ==> accounts[i].id == PRIMARY
  {
    if accounts != [] {
      var front, last := accounts[..|accounts| - 1], accounts[|accounts| - 1];
      CountersMean(front);
      hide Fold;
      assert accounts == front + [last];
      if Exists(front, PRIMARY) {
        var i :| 0 <= i < |front| && front[i].id == PRIMARY;
        assert accounts[i].id == PRIMARY;
        assert Fold(accounts[i].id) != Fold(last.id);
      }
      if last.id == PRIMARY {
        assert accounts[|accounts| - 1].id == PRIMARY;
      }
    }
  }

  lemma TrustedHomesDiffer(a: Account, b: Account, homes: set<string>)
    requires AcceptableAccount(a, homes) && AcceptableAccount(b, homes) && Fold(a.id) != Fold(b.id)
    ensures !SamePath(a.home, b.home)
  {
  }

  /** validatePersistedState accepts exactly the acceptable states, and hands back the same accounts and owners. */
  method ValidatePersistedState(p: Persisted, homes: set<string>)
    returns (result: Result<(seq<Account>, map<string, string>), StateError>)
    ensures result.Ok? <==> Acceptable(p, homes)
    ensures result.Ok? ==> result.value == (CanonicalAll(p.accounts), p.threadOwner)
    ensures result.Ok? ==> forall i :: 0 <= i < |p.accounts| ==>
              result.value.0[i] ==
              p.accounts[i].(home := if p.accounts[i].id == "primary" then PrimaryHome else Managed(p.accounts[i].id))
  {
    if p.version != STATE_VERSION {
      return Err(UnsupportedVersion);
    }
    if |p.accounts| == 0 {
      return Err(NoAccounts);
    }
    if |p.accounts| > MAX_ACCOUNTS {
      return Err(TooManyAccounts);
    }
    var broken := CheckAccounts(p.accounts, homes);
    assert broken.None? <==> (forall i :: 0 <= i < |p.accounts| ==> AcceptableAccount(p.accounts[i], homes)) &&
                             DistinctIDs(p.accounts) && OneController(p.accounts) by {
      if (forall i :: 0 <= i < |p.accounts| ==> AcceptableAccount(p.accounts[i], homes)) && DistinctIDs(p.accounts) {
        CountersMean(p.accounts);
      }
    }
    if broken.Some? {
      return Err(broken.value);
    }
    for i := 0 to |p.accounts| {
      for j := i + 1 to |p.accounts| {
        TrustedHomesDiffer(p.accounts[i], p.accounts[j], homes);
        if SamePath(p.accounts[i].home, p.accounts[j].home) {
          return Err(SharedHome);
        }
      }
    }
    broken := CheckOwners(p.threadOwner, p.accounts);
    if broken.Some? {
      return Err(broken.value);
    }
    return Ok((CanonicalAll(p.accounts), p.threadOwner));
  }

  // ---- in plain terms ----

  /** 1 to 64 ASCII letters, digits, hyphens and underscores: no dot and no separator, so one directory's name. */
  predicate PlainID(id: string) {
    1 <= |id| <= 64 && forall i :: 0 <= i < |id| ==>
      'a' <= id[i] <= 'z' || 'A' <= id[i] <= 'Z' || '0' <= id[i] <= '9' || id[i] == '-' || id[i] == '_'
  }

  /** Not empty, at most so many bytes, no white space at either end and no NUL in it. */
  predicate Clean(s: string, bytes: nat) {
    && s != "" && Text.Utf8Length(s) <= bytes && !Text.IsSpace(s[0]) && !Text.IsSpace(s[|s| - 1])
    && forall i :: 0 <= i < |s| ==> s[i] != '\0'
  }

  predicate SameLetter(c: char, d: char) {
    c == d || ('A' <= c <= 'Z' && d as int == c as int + 32) || ('A' <= d <= 'Z' && c as int == d as int + 32)
  }

  predicate SameButForCase(a: string, b: string) {
    |a| == |b| && forall i :: 0 <= i < |a| ==> SameLetter(a[i], b[i])
  }

  lemma FoldsAlike(a: string, b: string)
    ensures Fold(a) == Fold(b) <==> SameButForCase(a, b)
  {
    assert forall i :: 0 <= i < |a| && i < |b| ==> (FoldChar(a[i]) == FoldChar(b[i]) <==> SameLetter(a[i], b[i]));
    if SameButForCase(a, b) {
      assert forall i :: 0 <= i < |a| ==> Fold(a)[i] == Fold(b)[i];
    } else if |a| == |b| {
      var i :| 0 <= i < |a| && !SameLetter(a[i], b[i]);
      assert Fold(a)[i] != Fold(b)[i];
    }
  }

  lemma {:induction false} PlainIsShort(id: string)
    requires forall i :: 0 <= i < |id| ==> id[i] < '\U{80}'
    ensures Text.Utf8Length(id) == |id|
  {
    if id != "" {
      PlainIsShort(id[..|id| - 1]);
    }
  }

  lemma IDIsPlain(id: string)
    ensures ValidAccountID(id) <==> PlainID(id)
  {
    assert forall i :: 0 <= i < |id| ==> id[i] in id;
    if forall i :: 0 <= i < |id| ==> id[i] < '\U{80}' {
      PlainIsShort(id);
    }
  }

  lemma CleanIsTrimmed(s: string)
    ensures s != "" && !Text.IsSpace(s[0]) && !Text.IsSpace(s[|s| - 1]) <==> s != "" && Text.TrimSpace(s) == s
  {
    Text.TrimSpaceIsTrimmed(s);
    if Text.Trimmed(s) {
      Text.TrimmedIsFixed(s);
    }
  }

  predicate PlainAccount(a: Account, homes: set<string>) {
    && PlainID(a.id) && Clean(a.name, 256) && a.createdAt >= 0
    && (a.controller ==> a.enabled)
    && (if a.id == "primary" then a.controller && a.home.PrimaryHome?
        else a.home.Managed? && SameButForCase(a.home.id, a.id) && Fold(a.id) in homes)
  }

  lemma AccountIsPlain(a: Account, homes: set<string>)
    ensures AcceptableAccount(a, homes) <==> PlainAccount(a, homes)
  {
    IDIsPlain(a.id);
    CleanIsTrimmed(a.name);
    if a.home.Managed? {
      FoldsAlike(a.home.id, a.id);
    }
    hide Text.TrimSpace, Text.Utf8Length, Fold, PlainID, ValidAccountID;
  }

  /** What opening accepts, with every limit written out. */
  lemma AcceptableExactly(p: Persisted, homes: set<string>)
    ensures Acceptable(p, homes) <==>
              && p.version == 1 && 1 <= |p.accounts| <= 64
              && (forall i :: 0 <= i < |p.accounts| ==> PlainAccount(p.accounts[i], homes))
              && (forall i, j :: 0 <= i < j < |p.accounts| ==> !SameButForCase(p.accounts[i].id, p.accounts[j].id))
              && (exists i :: 0 <= i < |p.accounts| && p.accounts[i].id == "primary")
              && (forall i :: 0 <= i < |p.accounts| ==>
                    (p.accounts[i].controller <==> p.accounts[i].id == "primary"))
              && (forall t :: t in p.threadOwner ==>
                    Clean(t, 4096) && exists i :: 0 <= i < |p.accounts| && p.accounts[i].id == p.threadOwner[t])
  {
    forall i | 0 <= i < |p.accounts|
      ensures AcceptableAccount(p.accounts[i], homes) <==> PlainAccount(p.accounts[i], homes)
    {
      AccountIsPlain(p.accounts[i], homes);
    }
    forall i, j | 0 <= i < j < |p.accounts|
      ensures Fold(p.accounts[i].id) == Fold(p.accounts[j].id) <==> SameButForCase(p.accounts[i].id, p.accounts[j].id)
    {
      FoldsAlike(p.accounts[i].id, p.accounts[j].id);
    }
    forall t | t in p.threadOwner
      ensures ValidThreadID(t) <==> Clean(t, 4096)
    {
      CleanIsTrimmed(t);
    }
    hide AcceptableAccount, PlainAccount, SameButForCase, ValidThreadID, Clean, Fold;
  }
}
