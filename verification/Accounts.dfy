/** User rows of the authentication database and the store's conditional updates.

    Each update is first a function from the stored row to the row written
    (`None` when the WHERE clause selects nothing), then a method of `Store`
    that applies it to the table in place.
 */
module Accounts {
  import opened Names
  import opened Wrappers

  /** A salted password hash; hashing is injective. */
  datatype Hash = Hash(password: string, salt: nat)

  predicate Verifies(password: string, hash: Hash) {
    hash.password == password
  }

  datatype Kind = Root | Ordinary

  datatype Status = Active | Suspended

  /** `enabled` stands for a totp_enabled_at that is not NULL. */
  datatype User = User(
    id: nat, login: string, hash: Hash, kind: Kind, status: Status, mustChange: bool,
    version: nat, required: bool, secret: Option<string>, enabled: bool)

  type Users = map<nat, User>

  /** What a login depends on: password, duty to change it, second factor in force. */
  datatype Credentials = Credentials(hash: Hash, mustChange: bool, factor: Option<string>)

  function CredentialsOf(u: User): Credentials {
    Credentials(u.hash, u.mustChange, if u.enabled then u.secret else None)
  }

  predicate LoginFits(login: string) {
    3 <= |login| <= 64
  }

  /** The table's own constraints on one row, but for its login. */
  predicate WellFormed(u: User) {
    u.version >= 1 && (u.enabled ==> u.secret.Some?) && (u.kind.Root? ==> u.status.Active?)
  }

  function Row(users: Users, id: nat): Option<User> {
    if id in users then Some(users[id]) else None
  }

  function Write(users: Users, after: Option<User>): Users {
    if after.Some? then users[after.value.id := after.value] else users
  }

  /** An active row that still carries the version the caller read. */
  predicate Unchanged(row: Option<User>, version: nat) {
    row.Some? && row.value.status.Active? && row.value.version == version
  }

  // ---------- Updates a signed-in user asks for (store.go) ----------

  function Prepared(row: Option<User>, version: nat, secret: string): Option<User> {
    if Unchanged(row, version) && !row.value.enabled then
      Some(row.value.(secret := if row.value.secret.Some? then row.value.secret else Some(secret)))
    else None
  }

  function Enabled(row: Option<User>, version: nat, secret: string): Option<User> {
    if Unchanged(row, version) && row.value.secret == Some(secret) && !row.value.enabled then
      Some(row.value.(enabled := true, version := version + 1))
    else None
  }

  function Disabled(row: Option<User>, version: nat): Option<User> {
    if Unchanged(row, version) && !row.value.required && row.value.enabled then
      Some(row.value.(secret := None, enabled := false, version := version + 1))
    else None
  }

  function PasswordChanged(row: Option<User>, version: nat, current: Hash, newHash: Hash): Option<User> {
    if Unchanged(row, version) && row.value.hash == current then
      Some(row.value.(hash := newHash, mustChange := false, version := version + 1))
    else None
  }

  // ---------- Updates an administrator asks for (admin.go, lifecycle.go) ----------

  function NewUser(id: nat, login: string, hash: Hash, required: bool): User {
    User(id, login, hash, Ordinary, Active, true, 1, required, None, false)
  }

  function NewRoot(id: nat, hash: Hash): User {
    User(id, "root", hash, Root, Active, false, 1, false, None, false)
  }

  /** Only names and e-mail of root change, and these are not part of the model. */
  function Updated(row: Option<User>, login: string, status: Status, required: bool, reset: bool): Option<User> {
    if row.None? || row.value.kind.Root? then row
    else
      var u := row.value.(login := login, status := status, required := required);
      Some(if reset then u.(secret := None, enabled := false, version := u.version + 1) else u)
  }

  function PasswordReset(row: Option<User>, hash: Hash): Option<User> {
    if row.Some? && row.value.kind.Ordinary? then
      Some(row.value.(hash := hash, mustChange := true, version := row.value.version + 1))
    else None
  }

  function RootPasswordReset(row: Option<User>, hash: Hash): Option<User> {
    if row.Some? && row.value.kind.Root? then
      Some(row.value.(hash := hash, mustChange := false, version := row.value.version + 1))
    else None
  }

  function RootFactorDisabled(row: Option<User>): Option<User> {
    if row.Some? && row.value.kind.Root? then
      Some(row.value.(required := false, secret := None, enabled := false, version := row.value.version + 1))
    else None
  }

  /** Every write either keeps the version and the credentials, or raises the version by one. */
  predicate Advances(before: User, after: User) {
    && after.id == before.id
    && WellFormed(after)
    && (after.version == before.version + 1
        || (after.version == before.version && CredentialsOf(after) == CredentialsOf(before)))
  }

  ghost predicate TableOk(users: Users, lastId: nat) {
    && (forall id | id in users :: users[id].id == id && 1 <= id <= lastId && WellFormed(users[id]) && LoginFits(users[id].login))
    && (forall a, b | a in users && b in users && users[a].kind.Root? && users[b].kind.Root? :: a == b)
    && LoginsDiffer(users)
  }

  ghost predicate LoginsDiffer(users: Users) {
    forall a, b {:trigger Clash(users, a, b)} :: !Clash(users, a, b)
  }

  /** Two rows with one login, letter case aside. */
  ghost predicate Clash(users: Users, a: nat, b: nat) {
    a in users && b in users && a != b && SameName(users[a].login, users[b].login)
  }

  lemma OneRowMore(users: Users, u: User)
    requires LoginsDiffer(users) && forall id | id in users && id != u.id :: !SameName(users[id].login, u.login)
    ensures LoginsDiffer(users[u.id := u])
  {
    var after := users[u.id := u];
    forall a, b ensures !Clash(after, a, b) { assert !Clash(users, a, b); }
  }

  lemma RewriteKeepsTable(users: Users, lastId: nat, u: User)
    requires TableOk(users, lastId) && u.id in users && u.kind == users[u.id].kind && WellFormed(u)
    requires u.login == users[u.id].login
             || (LoginFits(u.login) && forall id | id in users && id != u.id :: !SameName(users[id].login, u.login))
    ensures TableOk(users[u.id := u], lastId)
  {
    forall id | id in users && id != u.id ensures !SameName(users[id].login, u.login) { assert !Clash(users, id, u.id); }
    OneRowMore(users, u);
  }

  /** The row an edit writes is the table's own, and the table stays sound. */
  lemma EditKeepsTable(users: Users, lastId: nat, id: nat, u: User, reset: bool, after: User)
    requires TableOk(users, lastId) && id in users && users[id].kind.Ordinary? && LoginFits(u.login)
    requires u == users[id].(login := u.login, status := u.status, required := u.required)
    requires forall x | x in users && x != id :: !SameName(users[x].login, u.login)
    requires after == if reset then u.(secret := None, enabled := false, version := u.version + 1) else u
    ensures Updated(Row(users, id), u.login, u.status, u.required, reset) == Some(after)
    ensures TableOk(users[id := after], lastId) && users[id := after] == Write(users, Some(after))
  {
    RewriteKeepsTable(users, lastId, after);
  }

  lemma RemovalKeepsTable(users: Users, lastId: nat, id: nat)
    requires TableOk(users, lastId)
    ensures TableOk(users - {id}, lastId)
  {
    forall a, b ensures !Clash(users - {id}, a, b) { assert !Clash(users, a, b); }
  }

  lemma AddKeepsTable(users: Users, lastId: nat, u: User)
    requires TableOk(users, lastId) && u.id == lastId + 1 && WellFormed(u) && LoginFits(u.login)
    requires forall id | id in users :: !SameName(users[id].login, u.login) && (u.kind.Root? ==> users[id].kind.Ordinary?)
    ensures u.id !in users && TableOk(users[u.id := u], u.id)
  {
    OneRowMore(users, u);
  }

  // ---------- Permissions on modules (admin.go) ----------

  /** Levels by module, as a form gives them or as the table holds them for one user. */
  type Levels = map<nat, string>

  /** Every level is one of four, and every module that gets one of the three others can be assigned. */
  predicate Grantable(items: Levels, assignable: set<nat>) {
    forall m | m in items && items[m] != "none" :: items[m] in {"view", "action", "modify"} && m in assignable
  }

  /** The rows that a form leaves: none for a module set to none. */
  function Granted(items: Levels): Levels {
    map m | m in items && items[m] != "none" :: items[m]
  }

  /** The users table and its permission rows, updated in place. `lastId` is SQLite's AUTOINCREMENT counter. */
  class Store {
    var users: Users
    var lastId: nat
    var permissions: map<nat, Levels>

    ghost predicate Valid()
      reads this
    {
      TableOk(users, lastId) && permissions.Keys <= users.Keys
    }

    constructor ()
      ensures Valid() && users == map[] && lastId == 0 && permissions == map[]
    {
      users, lastId, permissions := map[], 0, map[];
    }

    /** The loop over the submitted levels, which stops at the first it cannot insert. */
    method CollectLevels(items: Levels, assignable: set<nat>) returns (rows: Option<Levels>)
      ensures rows.Some? <==> Grantable(items, assignable)
      ensures rows.Some? ==> rows.value == Granted(items)
    {
      var inserted: Levels, rest := map[], items.Keys;
      while rest != {}
        invariant rest <= items.Keys
        invariant forall m | m in items.Keys - rest && items[m] != "none" :: items[m] in {"view", "action", "modify"} && m in assignable
        invariant inserted == map m | m in items.Keys - rest && items[m] != "none" :: items[m]
        decreases rest
      {
        var m :| m in rest;
        var level := items[m];
        if level != "none" {
          if level != "view" && level != "action" && level != "modify" {
            return None;
          }
          if m !in assignable {
            return None;
          }
          inserted := inserted[m := level];
        }
        rest := rest - {m};
      }
      return Some(inserted);
    }

    method PrepareTOTP(id: nat, version: nat, secret: string) returns (r: Option<User>)
      requires Valid()
      modifies this`users
      ensures Valid()
      ensures r == Prepared(Row(old(users), id), version, secret) && users == Write(old(users), r)
    {
      r := None;
      if id in users && users[id].status == Active && users[id].version == version && !users[id].enabled {
        if users[id].secret == None {
          RewriteKeepsTable(users, lastId, users[id].(secret := Some(secret)));
          users := users[id := users[id].(secret := Some(secret))];
        }
        r := Some(users[id]);
        assert users == Write(old(users), r);
      }
    }

    method EnableTOTP(id: nat, version: nat, secret: string) returns (r: Option<User>)
      requires Valid()
      modifies this`users
      ensures Valid()
      ensures r == Enabled(Row(old(users), id), version, secret) && users == Write(old(users), r)
    {
      r := None;
      if id in users && users[id].status == Active && users[id].version == version
         && users[id].secret == Some(secret) && !users[id].enabled {
        RewriteKeepsTable(users, lastId, users[id].(enabled := true, version := users[id].version + 1));
        users := users[id := users[id].(enabled := true, version := users[id].version + 1)];
        r := Some(users[id]);
      }
    }

    method DisableTOTP(id: nat, version: nat) returns (r: Option<User>)
      requires Valid()
      modifies this`users
      ensures Valid()
      ensures r == Disabled(Row(old(users), id), version) && users == Write(old(users), r)
    {
      r := None;
      if id in users && users[id].status == Active && users[id].version == version
         && !users[id].required && users[id].enabled {
        RewriteKeepsTable(users, lastId, users[id].(secret := None, enabled := false, version := users[id].version + 1));
        users := users[id := users[id].(secret := None, enabled := false, version := users[id].version + 1)];
        r := Some(users[id]);
      }
    }

    method ChangePassword(id: nat, version: nat, current: Hash, newHash: Hash) returns (r: Option<User>)
      requires Valid()
      modifies this`users
      ensures Valid()
      ensures r == PasswordChanged(Row(old(users), id), version, current, newHash) && users == Write(old(users), r)
    {
      r := None;
      if id in users && users[id].status == Active && users[id].version == version && users[id].hash == current {
        var u := users[id].(hash := newHash, mustChange := false, version := users[id].version + 1);
        RewriteKeepsTable(users, lastId, u);
        users := users[id := u];
        r := Some(users[id]);
      }
    }

    /** One transaction: a level that cannot be granted, a login that does not fit or is taken, or another
        constraint (`fits`) leaves everything as it was. */
    method CreateAdminUser(login: string, hash: Hash, required: bool, items: Levels, assignable: set<nat>, fits: bool)
      returns (id: Option<nat>)
      requires Valid()
      modifies this
      ensures Valid()
      ensures id.Some? <==>
              fits && Grantable(items, assignable) && LoginFits(login)
              && forall u | u in old(users) :: !SameName(old(users)[u].login, login)
      ensures id.None? ==> unchanged(this)
      ensures id.Some? ==> id.value == lastId == old(lastId) + 1 && id.value !in old(users)
      ensures id.Some? ==> users == old(users)[lastId := NewUser(lastId, login, hash, required)]
      ensures id.Some? ==> permissions == old(permissions)[lastId := Granted(items)]
    {
      if !fits || !LoginFits(login) || exists u | u in users :: SameName(users[u].login, login) {
        return None;
      }
      var rows := CollectLevels(items, assignable);
      if rows.None? {
        return None;
      }
      var u := NewUser(lastId + 1, login, hash, required);
      AddKeepsTable(users, lastId, u);
      lastId := u.id;
      users := users[u.id := u];
      permissions := permissions[u.id := rows.value];
      return Some(lastId);
    }

    method InitializeRoot(hash: Hash) returns (ok: bool)
      requires Valid()
      modifies this
      ensures Valid()
      ensures ok <==> forall u | u in old(users) :: !SameName(old(users)[u].login, "root") && old(users)[u].kind.Ordinary?
      ensures !ok ==> unchanged(this)
      ensures ok ==> lastId == old(lastId) + 1 && lastId !in old(users)
                     && users == old(users)[lastId := NewRoot(lastId, hash)]
    {
      if exists u | u in users :: SameName(users[u].login, "root") || users[u].kind == Root {
        return false;
      }
      var u := NewRoot(lastId + 1, hash);
      AddKeepsTable(users, lastId, u);
      lastId := u.id;
      users := users[u.id := u];
      return true;
    }

    /** One transaction: a level that cannot be granted, a login that does not fit or is taken, or another
        constraint (`fits`) rolls row and permissions back. Of root only names and e-mail are written. */
    method UpdateAdminUser(
        id: nat, login: string, status: Status, required: bool, reset: bool, items: Levels, assignable: set<nat>, fits: bool)
      returns (ok: bool)
      requires Valid()
      modifies this`users, this`permissions
      ensures Valid()
      ensures ok <==> id in old(users) && fits && (old(users)[id].kind.Root? ||
                      (Grantable(items, assignable) && LoginFits(login)
                       && forall u | u in old(users) && u != id :: !SameName(old(users)[u].login, login)))
      ensures !ok ==> users == old(users) && permissions == old(permissions)
      ensures ok ==> users == Write(old(users), Updated(Row(old(users), id), login, status, required, reset))
      ensures ok ==> permissions == if old(users)[id].kind.Root? then old(permissions) else old(permissions)[id := Granted(items)]
    {
      if id !in users || !fits {
        return false;
      }
      if users[id].kind == Root {
        assert users == Write(users, Row(users, id));
        return true;
      }
      if !LoginFits(login) || exists u | u in users :: u != id && SameName(users[u].login, login) {
        return false;
      }
      var rows := CollectLevels(items, assignable);
      if rows.None? {
        return false;
      }
      var u := users[id].(login := login, status := status, required := required);
      if reset {
        u := u.(secret := None, enabled := false, version := u.version + 1);
      }
      EditKeepsTable(users, lastId, id, users[id].(login := login, status := status, required := required), reset, u);
      users := users[id := u];
      permissions := permissions[id := rows.value];
      return true;
    }

    method ResetAdminPassword(id: nat, hash: Hash) returns (ok: bool)
      requires Valid()
      modifies this`users
      ensures Valid()
      ensures ok <==> id in old(users) && old(users)[id].kind.Ordinary?
      ensures users == Write(old(users), PasswordReset(Row(old(users), id), hash))
    {
      ok := id in users && users[id].kind == Ordinary;
      if ok {
        var u := users[id].(hash := hash, mustChange := true, version := users[id].version + 1);
        RewriteKeepsTable(users, lastId, u);
        users := users[id := u];
      }
    }

    /** The permission rows of a user go with the user. */
    method DeleteAdminUser(id: nat) returns (ok: bool)
      requires Valid()
      modifies this`users, this`permissions
      ensures Valid()
      ensures ok <==> id in old(users) && old(users)[id].kind.Ordinary?
      ensures users == if ok then old(users) - {id} else old(users)
      ensures permissions == if ok then old(permissions) - {id} else old(permissions)
    {
      ok := id in users && users[id].kind == Ordinary;
      if ok {
        RemovalKeepsTable(users, lastId, id);
        users, permissions := users - {id}, permissions - {id};
      }
    }

    method ResetRootPassword(hash: Hash) returns (root: Option<nat>)
      requires Valid()
      modifies this`users
      ensures Valid()
      ensures root.None? ==> users == old(users) && forall u | u in users :: users[u].kind.Ordinary?
      ensures root.Some? ==> RootPasswordReset(Row(old(users), root.value), hash).Some?
                             && users == Write(old(users), RootPasswordReset(Row(old(users), root.value), hash))
    {
      if id :| id in users && users[id].kind == Root {
        var u := users[id].(hash := hash, mustChange := false, version := users[id].version + 1);
        RewriteKeepsTable(users, lastId, u);
        users := users[id := u];
        return Some(id);
      }
      return None;
    }

    method DisableRootTwoFactor() returns (root: Option<nat>)
      requires Valid()
      modifies this`users
      ensures Valid()
      ensures root.None? ==> users == old(users) && forall u | u in users :: users[u].kind.Ordinary?
      ensures root.Some? ==> RootFactorDisabled(Row(old(users), root.value)).Some?
                             && users == Write(old(users), RootFactorDisabled(Row(old(users), root.value)))
    {
      if id :| id in users && users[id].kind == Root {
        RewriteKeepsTable(users, lastId, users[id].(required := false, secret := None, enabled := false, version := users[id].version + 1));
        users := users[id := users[id].(required := false, secret := None, enabled := false, version := users[id].version + 1)];
        return Some(id);
      }
      return None;
    }
  }
}
