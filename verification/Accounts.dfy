/** The users table: the guarded updates that decide who owns an account. */
module Accounts {
  import opened Common

  /** An argon2 hash: every call has its own salt, so no two calls give one hash. */
  datatype Hash = Hash(salt: nat, password: string)

  datatype User = User(hash: Option<Hash>, provider: Option<string>, subject: Option<string>, status: string)

  const ACTIVE := "active"

  predicate MayLogIn(status: string) { status == "active" || status == "demo" }

  /** `is_pending`: nobody has claimed the account. */
  predicate Pending(u: User) { u.hash == None && u.provider == None }

  datatype Table = Table(users: map<string, User>, salts: nat)

  // ---------------------------------------------------------------------------
  // The statements' conditions

  predicate CanClaimOidc(t: Table, name: string) {
    name in t.users && t.users[name].provider == None && t.users[name].hash == None
  }

  predicate CanBind(t: Table, name: string) {
    name in t.users && t.users[name].subject == None
  }

  predicate CanSetUp(t: Table, name: string) {
    name in t.users && t.users[name].hash == None && t.users[name].provider == None
  }

  predicate CanReset(t: Table, name: string, expected: Hash) {
    name in t.users && t.users[name].hash == Some(expected) && t.users[name].provider == None
    && t.users[name].status == ACTIVE
  }

  // ---------------------------------------------------------------------------
  // The statements

  function Put(t: Table, name: string, u: User): Table { t.(users := t.users[name := u]) }

  function NewHash(t: Table, password: string): Hash { Hash(t.salts, password) }

  /** One more salt is used up. */
  function Salted(t: Table): Table { t.(salts := t.salts + 1) }

  function ClaimOidc(t: Table, name: string, provider: string, subject: string): Table {
    if CanClaimOidc(t, name) then
      Put(t, name, t.users[name].(provider := Some(provider), subject := Some(subject)))
    else t
  }

  function Bind(t: Table, name: string, subject: string): Table {
    if CanBind(t, name) then Put(t, name, t.users[name].(subject := Some(subject))) else t
  }

  function SetUp(t: Table, name: string, password: string): Table {
    Salted(if CanSetUp(t, name) then Put(t, name, t.users[name].(hash := Some(NewHash(t, password)))) else t)
  }

  function Reset(t: Table, name: string, password: string, expected: Hash): Table {
    Salted(if CanReset(t, name, expected) then Put(t, name, t.users[name].(hash := Some(NewHash(t, password)))) else t)
  }

  /** The rehash after a login: by name alone, whatever the row holds by now. */
  function Rehash(t: Table, name: string, password: string): Table {
    Salted(if name in t.users then Put(t, name, t.users[name].(hash := Some(NewHash(t, password)))) else t)
  }

  function SetStatus(t: Table, name: string, status: string): Table {
    if name in t.users then Put(t, name, t.users[name].(status := status)) else t
  }

  function Create(t: Table, name: string, password: Option<string>, provider: Option<string>,
                  subject: Option<string>, status: string): Table {
    var hash := if password.Some? then Some(NewHash(t, password.value)) else None;
    Salted(if name in t.users then t else Put(t, name, User(hash, provider, subject, status)))
  }

  class UserStore {
    var users: map<string, User>
    var salts: nat

    constructor ()
      ensures Value() == Table(map[], 0)
    {
      users, salts := map[], 0;
    }

    function Value(): Table
      reads this
    {
      Table(users, salts)
    }

    method HashPassword(password: string) returns (h: Hash)
      modifies `salts
      ensures h == NewHash(old(Value()), password) && salts == old(salts) + 1
    {
      h := Hash(salts, password);
      salts := salts + 1;
    }

    /** `created` is false when the name is taken, where the insert raises. */
    method CreateUser(name: string, password: Option<string>, provider: Option<string>, subject: Option<string>,
                      status: string) returns (created: bool)
      modifies this
      ensures Value() == Create(old(Value()), name, password, provider, subject, status)
      ensures created <==> name !in old(users)
    {
      var hash: Option<Hash> := None;
      if password.Some? {
        var h := HashPassword(password.value);
        hash := Some(h);
      } else {
        salts := salts + 1;
      }
      if name in users {
        return false;
      }
      users := users[name := User(hash, provider, subject, status)];
      created := true;
    }

    method ClaimPendingOidc(name: string, provider: string, subject: string) returns (rowcount: nat)
      modifies `users
      ensures Value() == ClaimOidc(old(Value()), name, provider, subject)
      ensures rowcount == if CanClaimOidc(old(Value()), name) then 1 else 0
    {
      rowcount := 0;
      if name in users && users[name].provider == None && users[name].hash == None {
        users := users[name := users[name].(provider := Some(provider), subject := Some(subject))];
        rowcount := 1;
      }
    }

    method BindOidcSubject(name: string, subject: string)
      modifies `users
      ensures Value() == Bind(old(Value()), name, subject)
    {
      if name in users && users[name].subject == None {
        users := users[name := users[name].(subject := Some(subject))];
      }
    }

    method ClaimPendingPassword(name: string, password: string) returns (rowcount: nat)
      modifies this
      ensures Value() == SetUp(old(Value()), name, password)
      ensures rowcount == if CanSetUp(old(Value()), name) then 1 else 0
    {
      var h := HashPassword(password);
      rowcount := 0;
      if name in users && users[name].hash == None && users[name].provider == None {
        users := users[name := users[name].(hash := Some(h))];
        rowcount := 1;
      }
    }

    method ResetPassword(name: string, password: string, expected: Hash) returns (rowcount: nat)
      modifies this
      ensures Value() == Reset(old(Value()), name, password, expected)
      ensures rowcount == if CanReset(old(Value()), name, expected) then 1 else 0
    {
      var h := HashPassword(password);
      rowcount := 0;
      if name in users && users[name].hash == Some(expected) && users[name].provider == None
         && users[name].status == ACTIVE {
        users := users[name := users[name].(hash := Some(h))];
        rowcount := 1;
      }
    }

    /** The credential check; `outdated` is the cost profile's answer for the stored hash. */
    method Authenticate(name: string, password: string, outdated: bool) returns (ok: bool)
      modifies this
      ensures ok <==> (name in old(users) && old(users)[name].status == ACTIVE && old(users)[name].hash.Some?
                       && old(users)[name].hash.value.password == password)
      ensures Value() == if ok && outdated then Rehash(old(Value()), name, password) else old(Value())
    {
      if name !in users || users[name].status != ACTIVE || users[name].hash == None
         || users[name].hash.value.password != password {
        return false;
      }
      if outdated {
        var h := HashPassword(password);
        users := users[name := users[name].(hash := Some(h))];
      }
      ok := true;
    }
  }
}
