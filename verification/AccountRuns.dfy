/** Runs over one users table: sign-ins, claims, links and rehashes of any number of requests, each read
    separated from its write. */
module AccountRuns {
  import opened Common
  import opened Accounts

  datatype Event =
    | Claimed(name: string, provider: string, subject: string)
    | WasSetUp(name: string)
    | LoggedIn(name: string, provider: string, subject: string)
    | WasReset(name: string, cred: string, spent: Hash)
  {
    /** A pending account was taken. */
    predicate Takes(n: string) { (Claimed? && name == n) || (WasSetUp? && name == n) }
  }

  /** The marker of a stored hash that a reset link carries. */
  datatype Env = Env(fingerprint: Hash -> string) {
    ghost predicate Injective() {
      forall a, b :: fingerprint(a) == fingerprint(b) ==> a == b
    }
  }

  /** A read that allowed a write stays usable for that write, any number of times; a login writes its
      rehash once, or never. */
  datatype State = State(
    t: Table,
    claims: set<(string, string, string)>,    // pending when read: name, provider, subject
    claimed: set<(string, string, string)>,   // after the guarded claim, before the second read
    binds: set<(string, string, string)>,     // bound to this provider when read
    bound: set<(string, string, string)>,     // after the guarded bind, before the second read
    links: set<(string, string)>,             // reset links: name and marker
    posts: set<(string, string, Hash)>,       // actionable reset posts, with the hash they read
    logins: multiset<(string, string)>,       // password logins that passed and have their rehash to write
    log: seq<Event>)

  datatype Step =
    | CreateUser(name: string, initial: Option<string>, pinned: Option<string>, status: string)
    | SignUp(name: string, provider: string, subject: string)
    | LookUpOidc(name: string, provider: string, subject: string)
    | WriteClaim(name: string, provider: string, subject: string)
    | CheckClaim(name: string, provider: string, subject: string)
    | WriteBind(name: string, provider: string, subject: string)
    | CheckBind(name: string, provider: string, subject: string)
    | PostSetUp(name: string, password: string)
    | MintReset(name: string)
    | PostReset(name: string, cred: string)
    | WriteReset(name: string, cred: string, expected: Hash, password: string)
    | LogIn(name: string, password: string, outdated: bool)
    | WriteRehash(name: string, password: string)
    | DropRehash(name: string, password: string)  // the write failed, and the login stands
    | ChangeStatus(name: string, status: string)

  ghost predicate Can(s: State, step: Step) {
    match step
    case WriteClaim(n, p, b) => (n, p, b) in s.claims
    case CheckClaim(n, p, b) => (n, p, b) in s.claimed
    case WriteBind(n, p, b) => (n, p, b) in s.binds
    case CheckBind(n, p, b) => (n, p, b) in s.bound
    case MintReset(n) => n in s.t.users && s.t.users[n].hash.Some?
    case PostReset(n, c) => (n, c) in s.links
    case WriteReset(n, c, h, _) => (n, c, h) in s.posts
    case WriteRehash(n, p) => (n, p) in s.logins
    case DropRehash(n, p) => (n, p) in s.logins
    case _ => true
  }

  /** What `_resolve_oidc_user` may do next for a known account. */
  ghost predicate SeesPending(t: Table, name: string) {
    name in t.users && MayLogIn(t.users[name].status) && Pending(t.users[name])
  }

  ghost predicate SeesProvider(t: Table, name: string, provider: string) {
    name in t.users && MayLogIn(t.users[name].status) && !Pending(t.users[name])
    && t.users[name].provider == Some(provider)
  }

  /** `_actionable` for a reset link. */
  ghost predicate Actionable(env: Env, t: Table, name: string, cred: string) {
    name in t.users && t.users[name].hash.Some? && t.users[name].provider == None
    && t.users[name].status == ACTIVE && env.fingerprint(t.users[name].hash.value) == cred
  }

  /** The password verifies against the stored hash. */
  ghost predicate PasswordHolds(t: Table, name: string, password: string) {
    name in t.users && t.users[name].hash.Some? && t.users[name].hash.value.password == password
  }

  /** `authenticate` lets the password in. */
  ghost predicate Opens(t: Table, name: string, password: string) {
    PasswordHolds(t, name, password) && t.users[name].status == ACTIVE
  }

  ghost function Do(env: Env, s: State, step: Step): State
    requires Can(s, step)
  {
    match step
    case CreateUser(n, pw, p, status) => s.(t := Create(s.t, n, pw, p, None, status))
    case SignUp(n, p, b) =>
      if n in s.t.users then s
      else s.(t := Create(s.t, n, None, Some(p), Some(b), "demo"), log := s.log + [LoggedIn(n, p, b)])
    case LookUpOidc(n, p, b) =>
      if SeesPending(s.t, n) then s.(claims := s.claims + {(n, p, b)})
      else if SeesProvider(s.t, n, p) then s.(binds := s.binds + {(n, p, b)})
      else s
    case WriteClaim(n, p, b) =>
      s.(t := ClaimOidc(s.t, n, p, b), claimed := s.claimed + {(n, p, b)},
         log := if CanClaimOidc(s.t, n) then s.log + [Claimed(n, p, b)] else s.log)
    case CheckClaim(n, p, b) =>
      if n in s.t.users && s.t.users[n].provider == Some(p) && s.t.users[n].subject == Some(b)
      then s.(log := s.log + [LoggedIn(n, p, b)]) else s
    case WriteBind(n, p, b) => s.(t := Bind(s.t, n, b), bound := s.bound + {(n, p, b)})
    case CheckBind(n, p, b) =>
      if n in s.t.users && s.t.users[n].subject == Some(b) then s.(log := s.log + [LoggedIn(n, p, b)]) else s
    case PostSetUp(n, pw) =>
      s.(t := SetUp(s.t, n, pw), log := if CanSetUp(s.t, n) then s.log + [WasSetUp(n)] else s.log)
    case MintReset(n) => s.(links := s.links + {(n, env.fingerprint(s.t.users[n].hash.value))})
    case PostReset(n, c) =>
      if Actionable(env, s.t, n, c) then s.(posts := s.posts + {(n, c, s.t.users[n].hash.value)}) else s
    case WriteReset(n, c, h, pw) =>
      s.(t := Reset(s.t, n, pw, h), log := if CanReset(s.t, n, h) then s.log + [WasReset(n, c, h)] else s.log)
    case LogIn(n, pw, outdated) =>
      if Opens(s.t, n, pw) && outdated then s.(logins := s.logins + multiset{(n, pw)}) else s
    case WriteRehash(n, pw) => s.(t := Rehash(s.t, n, pw), logins := s.logins - multiset{(n, pw)})
    case DropRehash(n, pw) => s.(logins := s.logins - multiset{(n, pw)})
    case ChangeStatus(n, status) => s.(t := SetStatus(s.t, n, status))
  }

  ghost predicate Legal(env: Env, s: State, steps: seq<Step>)
    decreases |steps|
  {
    steps != [] ==> Can(s, steps[0]) && Legal(env, Do(env, s, steps[0]), steps[1..])
  }

  ghost function Run(env: Env, s: State, steps: seq<Step>): State
    requires Legal(env, s, steps)
    decreases |steps|
  {
    if steps == [] then s else Run(env, Do(env, s, steps[0]), steps[1..])
  }

  const INITIAL := State(Table(map[], 0), {}, {}, {}, {}, {}, {}, multiset{}, [])

  // ---------------------------------------------------------------------------
  // The invariant

  ghost predicate UserValid(t: Table, u: User) {
    && (u.hash.Some? ==> u.hash.value.salt < t.salts)
    && (u.subject.Some? ==> u.provider.Some?)
  }

  ghost predicate UsersValid(t: Table) {
    forall n :: n in t.users ==> UserValid(t, t.users[n])
  }

  ghost predicate ReadsValid(env: Env, s: State) {
    && (forall r :: r in s.binds ==> r.0 in s.t.users && s.t.users[r.0].provider == Some(r.1))
    && (forall r :: r in s.bound ==> r.0 in s.t.users && s.t.users[r.0].provider == Some(r.1))
    && (forall r :: r in s.posts ==> r.2.salt < s.t.salts && env.fingerprint(r.2) == r.1)
    && (forall r :: r in s.logins ==> r.0 in s.t.users && s.t.users[r.0].hash.Some?)
  }

  /** What an event says stays true of the row. */
  ghost predicate Lasting(env: Env, t: Table, e: Event) {
    match e
    case Claimed(n, p, b) => n in t.users && t.users[n].provider == Some(p) && t.users[n].subject == Some(b)
    case WasSetUp(n) => n in t.users && t.users[n].hash.Some? && t.users[n].provider == None
    case LoggedIn(n, p, b) => n in t.users && t.users[n].provider == Some(p) && t.users[n].subject == Some(b)
    case WasReset(n, c, h) =>
      n in t.users && t.users[n].hash.Some? && t.users[n].provider == None
      && t.users[n].hash != Some(h) && h.salt < t.salts && env.fingerprint(h) == c
  }

  ghost predicate OneTaking(log: seq<Event>) {
    forall i, j, n {:trigger log[i].Takes(n), log[j].Takes(n)} ::
      0 <= i < j < |log| && log[i].Takes(n) ==> !log[j].Takes(n)
  }

  ghost predicate ResetsOnce(log: seq<Event>) {
    forall i, j :: 0 <= i < j < |log| && log[i].WasReset? && log[j].WasReset? && log[i].name == log[j].name ==>
      log[i].spent != log[j].spent
  }

  ghost predicate Inv(env: Env, s: State) {
    && UsersValid(s.t)
    && ReadsValid(env, s)
    && (forall i :: 0 <= i < |s.log| ==> Lasting(env, s.t, s.log[i]))
    && OneTaking(s.log)
    && ResetsOnce(s.log)
  }

  /** What no step undoes about a row: its binding, its being claimed, and a hash that has been
      replaced staying replaced. */
  ghost predicate Onward(t: Table, t': Table) {
    && t.salts <= t'.salts
    && forall n :: n in t.users ==> n in t'.users && RowOnward(t, t.users[n], t'.users[n])
  }

  ghost predicate RowOnward(t: Table, u: User, v: User) {
    && (u.provider.Some? || u.hash.Some? ==> v.provider == u.provider)
    && (u.subject.Some? ==> v.subject == u.subject)
    && (u.hash.Some? ==> v.hash.Some?)
    && (v.hash == u.hash || (v.hash.Some? && v.hash.value.salt >= t.salts))
  }

  // What each statement keeps of the table

  lemma CreateKeeps(t: Table, n: string, password: Option<string>, provider: Option<string>, subject: Option<string>,
                    status: string)
    ensures Onward(t, Create(t, n, password, provider, subject, status))
    ensures UsersValid(t) && (subject.Some? ==> provider.Some?) ==>
              UsersValid(Create(t, n, password, provider, subject, status))
  {
  }

  lemma ClaimOidcKeeps(t: Table, n: string, p: string, b: string)
    ensures UsersValid(t) ==> Onward(t, ClaimOidc(t, n, p, b)) && UsersValid(ClaimOidc(t, n, p, b))
  {
  }

  lemma BindKeeps(t: Table, n: string, b: string)
    ensures Onward(t, Bind(t, n, b))
    ensures UsersValid(t) && (n in t.users ==> t.users[n].provider.Some?) ==> UsersValid(Bind(t, n, b))
  {
  }

  lemma SetUpKeeps(t: Table, n: string, pw: string)
    ensures Onward(t, SetUp(t, n, pw))
    ensures UsersValid(t) ==> UsersValid(SetUp(t, n, pw))
  {
  }

  lemma ResetKeeps(t: Table, n: string, pw: string, expected: Hash)
    ensures Onward(t, Reset(t, n, pw, expected))
    ensures UsersValid(t) ==> UsersValid(Reset(t, n, pw, expected))
  {
  }

  lemma RehashKeeps(t: Table, n: string, pw: string)
    ensures Onward(t, Rehash(t, n, pw))
    ensures UsersValid(t) ==> UsersValid(Rehash(t, n, pw))
  {
  }

  lemma SetStatusKeeps(t: Table, n: string, status: string)
    ensures Onward(t, SetStatus(t, n, status))
    ensures UsersValid(t) ==> UsersValid(SetStatus(t, n, status))
  {
  }

  lemma OnwardSelf(t: Table)
    ensures Onward(t, t)
  {
  }

  lemma BindsKnown(env: Env, s: State, n: string, p: string, b: string)
    requires Inv(env, s) && (n, p, b) in s.binds
    ensures n in s.t.users && s.t.users[n].provider == Some(p)
  {
    hide UsersValid, Lasting, OneTaking, ResetsOnce;
  }

  lemma InvUsers(env: Env, s: State)
    requires Inv(env, s)
    ensures UsersValid(s.t) && ReadsValid(env, s)
  {
  }

  /** Every step moves the table onward and keeps its rows valid. */
  lemma StepOnward(env: Env, s: State, step: Step)
    requires Inv(env, s) && Can(s, step)
    ensures Onward(s.t, Do(env, s, step).t) && UsersValid(Do(env, s, step).t)
  {
    hide Inv, Onward, UsersValid, ReadsValid, Create, ClaimOidc, Bind, SetUp, Reset, Rehash, SetStatus;
    InvUsers(env, s);
    OnwardSelf(s.t);
    match step
    case CreateUser(n, pw, p, status) => CreateKeeps(s.t, n, pw, p, None, status);
    case SignUp(n, p, b) => CreateKeeps(s.t, n, None, Some(p), Some(b), "demo");
    case WriteClaim(n, p, b) => ClaimOidcKeeps(s.t, n, p, b);
    case WriteBind(n, p, b) =>
      BindsKnown(env, s, n, p, b);
      BindKeeps(s.t, n, b);
    case PostSetUp(n, pw) => SetUpKeeps(s.t, n, pw);
    case WriteReset(n, c, h, pw) => ResetKeeps(s.t, n, pw, h);
    case WriteRehash(n, pw) => RehashKeeps(s.t, n, pw);
    case ChangeStatus(n, status) => SetStatusKeeps(s.t, n, status);
    case _ =>
  }

  /** What the reads saw stays true of a table further on. */
  lemma ReadsLast(env: Env, s: State, t: Table)
    requires ReadsValid(env, s) && Onward(s.t, t)
    ensures ReadsValid(env, s.(t := t))
  {
  }

  lemma SameReads(env: Env, s: State, s': State)
    requires ReadsValid(env, s) && s'.t == s.t
    requires s'.binds == s.binds && s'.bound == s.bound && s'.posts == s.posts && s'.logins <= s.logins
    ensures ReadsValid(env, s')
  {
    forall r | r in s'.logins ensures r in s.logins {}
  }

  lemma BindSeen(env: Env, s: State, n: string, p: string, b: string)
    requires ReadsValid(env, s) && SeesProvider(s.t, n, p)
    ensures ReadsValid(env, s.(binds := s.binds + {(n, p, b)}))
  {
  }

  lemma BindWritten(env: Env, s: State, n: string, p: string, b: string)
    requires ReadsValid(env, s) && (n, p, b) in s.binds
    ensures ReadsValid(env, s.(bound := s.bound + {(n, p, b)}))
  {
  }

  lemma PostSeen(env: Env, s: State, n: string, c: string)
    requires ReadsValid(env, s) && UsersValid(s.t) && Actionable(env, s.t, n, c)
    ensures ReadsValid(env, s.(posts := s.posts + {(n, c, s.t.users[n].hash.value)}))
  {
  }

  lemma LoginSeen(env: Env, s: State, n: string, pw: string)
    requires ReadsValid(env, s) && Opens(s.t, n, pw)
    ensures ReadsValid(env, s.(logins := s.logins + multiset{(n, pw)}))
  {
  }

  /** The reads a step adds saw the table as it was. */
  lemma ReadsAdded(env: Env, s: State, step: Step)
    requires Inv(env, s) && Can(s, step)
    ensures ReadsValid(env, Do(env, s, step).(t := s.t))
  {
    hide Inv, ReadsValid, UsersValid, SeesPending, SeesProvider, Opens, Create, ClaimOidc, Bind, SetUp, Reset, Rehash,
         SetStatus;
    InvUsers(env, s);
    SameReads(env, s, s);
    match step
    case LookUpOidc(n, p, b) =>
      if SeesPending(s.t, n) {
        SameReads(env, s, Do(env, s, step).(t := s.t));
      } else if SeesProvider(s.t, n, p) {
        BindSeen(env, s, n, p, b);
      }
    case WriteBind(n, p, b) => BindWritten(env, s, n, p, b);
    case PostReset(n, c) =>
      if Actionable(env, s.t, n, c) {
        PostSeen(env, s, n, c);
      }
    case LogIn(n, pw, outdated) =>
      if Opens(s.t, n, pw) && outdated {
        LoginSeen(env, s, n, pw);
      }
    case _ => SameReads(env, s, Do(env, s, step).(t := s.t));
  }

  lemma ReadsStayValid(env: Env, s: State, step: Step)
    requires Inv(env, s) && Can(s, step)
    ensures ReadsValid(env, Do(env, s, step))
  {
    hide Inv, ReadsValid, Onward, Do, Can;
    StepOnward(env, s, step);
    ReadsAdded(env, s, step);
    var t := Do(env, s, step);
    ReadsLast(env, t.(t := s.t), t.t);
    assert t.(t := s.t).(t := t.t) == t;
  }

  lemma LastingStays(env: Env, t: Table, u: Table, e: Event)
    requires Lasting(env, t, e) && Onward(t, u)
    ensures Lasting(env, u, e)
  {
  }

  /** What the new entry of a step says is true, and no earlier entry forbids it. */
  ghost predicate NewEntryFits(env: Env, s: State, s': State) {
    || s'.log == s.log
    || (|s'.log| == |s.log| + 1 && s'.log[..|s.log|] == s.log
        && var e := s'.log[|s.log|];
           && Lasting(env, s'.t, e)
           && (e.Claimed? || e.WasSetUp? ==> e.name in s.t.users && Pending(s.t.users[e.name]))
           && (e.WasReset? ==> e.name in s.t.users && s.t.users[e.name].hash == Some(e.spent)))
  }

  lemma StepFits(env: Env, s: State, step: Step)
    requires Inv(env, s) && Can(s, step)
    ensures NewEntryFits(env, s, Do(env, s, step))
  {
    hide OneTaking, ResetsOnce;
  }

  lemma LogStaysValid(env: Env, s: State, s': State)
    requires Inv(env, s) && Onward(s.t, s'.t) && NewEntryFits(env, s, s')
    ensures forall i :: 0 <= i < |s'.log| ==> Lasting(env, s'.t, s'.log[i])
    ensures OneTaking(s'.log) && ResetsOnce(s'.log)
  {
    hide Onward;
    forall i | 0 <= i < |s'.log| ensures Lasting(env, s'.t, s'.log[i]) {
      if i < |s.log| {
        assert s'.log[i] == s.log[i];
        LastingStays(env, s.t, s'.t, s.log[i]);
      }
    }
    forall i, j, n | 0 <= i < j < |s'.log| && s'.log[i].Takes(n) ensures !s'.log[j].Takes(n) {
      assert s'.log[i] == s.log[i];
      assert Lasting(env, s.t, s.log[i]);
    }
    forall i, j | 0 <= i < j < |s'.log| && s'.log[i].WasReset? && s'.log[j].WasReset?
      && s'.log[i].name == s'.log[j].name
      ensures s'.log[i].spent != s'.log[j].spent
    {
      assert s'.log[i] == s.log[i];
      assert Lasting(env, s.t, s.log[i]);
    }
  }

  lemma StepKeeps(env: Env, s: State, step: Step)
    requires Inv(env, s) && Can(s, step)
    ensures Inv(env, Do(env, s, step)) && Onward(s.t, Do(env, s, step).t)
  {
    assert ReadsValid(env, s);
    StepOnward(env, s, step);
    ReadsStayValid(env, s, step);
    StepFits(env, s, step);
    LogStaysValid(env, s, Do(env, s, step));
  }

  lemma OnwardTrans(a: Table, b: Table, c: Table)
    requires Onward(a, b) && Onward(b, c)
    ensures Onward(a, c)
  {
  }

  lemma {:induction false} RunKeeps(env: Env, s: State, steps: seq<Step>)
    requires Inv(env, s) && Legal(env, s, steps)
    ensures Inv(env, Run(env, s, steps)) && Onward(s.t, Run(env, s, steps).t)
    decreases |steps|
  {
    hide Inv;
    if steps != [] {
      StepKeeps(env, s, steps[0]);
      RunKeeps(env, Do(env, s, steps[0]), steps[1..]);
      OnwardTrans(s.t, Do(env, s, steps[0]).t, Run(env, s, steps).t);
    }
  }

  // ---------------------------------------------------------------------------
  // Main results

  ghost predicate Reached(env: Env, s: State) {
    exists steps :: Legal(env, INITIAL, steps) && s == Run(env, INITIAL, steps)
  }

  lemma ReachedInv(env: Env, s: State)
    requires Reached(env, s)
    ensures Inv(env, s)
  {
    var steps :| Legal(env, INITIAL, steps) && s == Run(env, INITIAL, steps);
    InitialHolds(env);
    hide Inv;
    RunKeeps(env, INITIAL, steps);
  }

  lemma InitialHolds(env: Env)
    ensures Inv(env, INITIAL)
  {
  }

  /** **Provider and subject are write-once, and an account never returns to pending**; one with a
      password never gains a provider. */
  lemma BindingWriteOnce(env: Env, s: State, steps: seq<Step>, name: string)
    requires Reached(env, s) && Legal(env, s, steps) && name in s.t.users
    ensures var t := Run(env, s, steps).t;
            && name in t.users
            && (s.t.users[name].provider.Some? ==> t.users[name].provider == s.t.users[name].provider)
            && (s.t.users[name].subject.Some? ==> t.users[name].subject == s.t.users[name].subject)
            && (s.t.users[name].hash.Some? ==> t.users[name].provider == s.t.users[name].provider)
            && (t.users[name].subject.Some? ==> t.users[name].provider.Some?)
            && (!Pending(s.t.users[name]) ==> !Pending(t.users[name]))
  {
    ReachedInv(env, s);
    RunKeeps(env, s, steps);
    assert UserValid(Run(env, s, steps).t, Run(env, s, steps).t.users[name]);
  }

  /** **At most one of all set-up passwords and provider claims of an account ever succeeds**, and after
      a set-up password no provider login ever does. */
  lemma OneTaker(env: Env, s: State, name: string, i: nat, j: nat)
    requires Reached(env, s) && i < |s.log| && j < |s.log|
    ensures s.log[i].Takes(name) && s.log[j].Takes(name) ==> i == j
    ensures s.log[i] == WasSetUp(name) && s.log[j].LoggedIn? ==> s.log[j].name != name
  {
    ReachedInv(env, s);
    assert Lasting(env, s.t, s.log[i]) && Lasting(env, s.t, s.log[j]);
  }

  /** **All successful provider logins to one account carry the same provider and subject**, and they
      are those of its row. */
  lemma LoginsAgree(env: Env, s: State, i: nat, j: nat)
    requires Reached(env, s) && i < |s.log| && j < |s.log|
    requires s.log[i].LoggedIn? && s.log[j].LoggedIn? && s.log[i].name == s.log[j].name
    ensures s.log[i] == s.log[j]
    ensures s.log[i].name in s.t.users
            && s.t.users[s.log[i].name].provider == Some(s.log[i].provider)
            && s.t.users[s.log[i].name].subject == Some(s.log[i].subject)
  {
    ReachedInv(env, s);
    assert Lasting(env, s.t, s.log[i]) && Lasting(env, s.t, s.log[j]);
  }

  /** **All posts of one reset link together change the password at most once**, and a spent link is
      not actionable again, whatever is written to the account later. */
  lemma LinkOnce(env: Env, s: State, i: nat, j: nat)
    requires env.Injective() && Reached(env, s) && i < |s.log| && j < |s.log| && s.log[i].WasReset?
    ensures s.log[j].WasReset? && s.log[j].name == s.log[i].name && s.log[j].cred == s.log[i].cred ==> i == j
    ensures !Actionable(env, s.t, s.log[i].name, s.log[i].cred)
  {
    ReachedInv(env, s);
    assert Lasting(env, s.t, s.log[i]) && Lasting(env, s.t, s.log[j]);
    assert ResetsOnce(s.log);
  }

  // ---------------------------------------------------------------------------
  // Which password opens an account

  /** The password a step puts in an account's hash, if it moves that hash at all: a create that takes
      the name, a set-up or a reset whose guard passes, and any rehash. */
  function Written(s: State, step: Step, name: string): Option<string> {
    match step
    case CreateUser(n, initial, _, _) => if n == name && name !in s.t.users then initial else None
    case PostSetUp(n, pw) => if n == name && CanSetUp(s.t, name) then Some(pw) else None
    case WriteReset(n, _, expected, pw) => if n == name && CanReset(s.t, name, expected) then Some(pw) else None
    case WriteRehash(n, pw) => if n == name && name in s.t.users then Some(pw) else None
    case _ => None
  }

  /** No step of the run moves the hash of `name`. */
  ghost predicate NeverWritten(env: Env, s: State, steps: seq<Step>, name: string)
    requires Legal(env, s, steps)
    decreases |steps|
  {
    steps != [] ==> Written(s, steps[0], name).None? && NeverWritten(env, Do(env, s, steps[0]), steps[1..], name)
  }

  /** Some step of the run writes `password`, and none after it moves the hash again. */
  ghost predicate LastWritten(env: Env, s: State, steps: seq<Step>, name: string, password: string)
    requires Legal(env, s, steps)
    decreases |steps|
  {
    steps != [] &&
    var next := Do(env, s, steps[0]);
    || (Written(s, steps[0], name) == Some(password) && NeverWritten(env, next, steps[1..], name))
    || LastWritten(env, next, steps[1..], name, password)
  }

  // Which password each statement leaves

  lemma CreateWrites(t: Table, n: string, initial: Option<string>, provider: Option<string>, subject: Option<string>,
                     status: string, name: string, password: string)
    ensures PasswordHolds(Create(t, n, initial, provider, subject, status), name, password) <==>
            if n == name && name !in t.users then initial == Some(password) else PasswordHolds(t, name, password)
  {
  }

  lemma SetUpWrites(t: Table, n: string, pw: string, name: string, password: string)
    ensures PasswordHolds(SetUp(t, n, pw), name, password) <==>
            if n == name && CanSetUp(t, name) then pw == password else PasswordHolds(t, name, password)
  {
  }

  lemma ResetWrites(t: Table, n: string, pw: string, expected: Hash, name: string, password: string)
    ensures PasswordHolds(Reset(t, n, pw, expected), name, password) <==>
            if n == name && CanReset(t, name, expected) then pw == password else PasswordHolds(t, name, password)
  {
  }

  lemma RehashWrites(t: Table, n: string, pw: string, name: string, password: string)
    ensures PasswordHolds(Rehash(t, n, pw), name, password) <==>
            if n == name && name in t.users then pw == password else PasswordHolds(t, name, password)
  {
  }

  lemma OthersWriteNone(t: Table, n: string, p: string, b: string, status: string, name: string, password: string)
    ensures PasswordHolds(ClaimOidc(t, n, p, b), name, password) <==> PasswordHolds(t, name, password)
    ensures PasswordHolds(Bind(t, n, b), name, password) <==> PasswordHolds(t, name, password)
    ensures PasswordHolds(SetStatus(t, n, status), name, password) <==> PasswordHolds(t, name, password)
  {
  }

  lemma UnknownHoldsNone(t: Table, name: string, password: string)
    requires name !in t.users
    ensures !PasswordHolds(t, name, password)
  {
  }

  lemma StepOpens(env: Env, s: State, step: Step, name: string, password: string)
    requires Can(s, step)
    ensures PasswordHolds(Do(env, s, step).t, name, password) <==>
            match Written(s, step, name)
            case Some(pw) => pw == password
            case None => PasswordHolds(s.t, name, password)
  {
    hide PasswordHolds, Create, ClaimOidc, Bind, SetUp, Reset, Rehash, SetStatus, CanSetUp, CanReset;
    match step
    case CreateUser(n, initial, p, status) =>
      CreateWrites(s.t, n, initial, p, None, status, name, password);
      if name !in s.t.users {
        UnknownHoldsNone(s.t, name, password);
      }
    case SignUp(n, p, b) =>
      CreateWrites(s.t, n, None, Some(p), Some(b), "demo", name, password);
      if name !in s.t.users {
        UnknownHoldsNone(s.t, name, password);
      }
    case WriteClaim(n, p, b) => OthersWriteNone(s.t, n, p, b, "", name, password);
    case WriteBind(n, p, b) => OthersWriteNone(s.t, n, p, b, "", name, password);
    case PostSetUp(n, pw) => SetUpWrites(s.t, n, pw, name, password);
    case WriteReset(n, _, expected, pw) => ResetWrites(s.t, n, pw, expected, name, password);
    case WriteRehash(n, pw) => RehashWrites(s.t, n, pw, name, password);
    case ChangeStatus(n, status) => OthersWriteNone(s.t, n, "", "", status, name, password);
    case _ =>
  }

  lemma {:induction false} OpensFrom(env: Env, s: State, steps: seq<Step>, name: string, password: string)
    requires Legal(env, s, steps)
    ensures PasswordHolds(Run(env, s, steps).t, name, password) <==>
            || LastWritten(env, s, steps, name, password)
            || (NeverWritten(env, s, steps, name) && PasswordHolds(s.t, name, password))
    decreases |steps|
  {
    hide Written, PasswordHolds, Do, Can;
    if steps != [] {
      StepOpens(env, s, steps[0], name, password);
      OpensFrom(env, Do(env, s, steps[0]), steps[1..], name, password);
    }
  }

  /** **A password opens an account exactly when it is the one written last and the account is
      active.** Over every interleaving a refused set-up or reset leaves it, and the rehash of an earlier
      login counts as a write. */
  lemma OpensIffLastWritten(env: Env, steps: seq<Step>, name: string, password: string)
    requires Legal(env, INITIAL, steps)
    ensures var t := Run(env, INITIAL, steps).t;
            && (PasswordHolds(t, name, password) <==> LastWritten(env, INITIAL, steps, name, password))
            && (Opens(t, name, password) <==>
                  && LastWritten(env, INITIAL, steps, name, password)
                  && name in t.users && t.users[name].status == ACTIVE)
  {
    OpensFrom(env, INITIAL, steps, name, password);
  }

  /** **What a reset sets opens the account from then on exactly as long as nothing else is written last
      and the account stays active**: `steps` is whatever follows a reset that moved the row. */
  lemma ResetOpensIff(env: Env, s: State, name: string, cred: string, expected: Hash, password: string,
                      steps: seq<Step>)
    requires (name, cred, expected) in s.posts && CanReset(s.t, name, expected)
    requires Legal(env, Do(env, s, WriteReset(name, cred, expected, password)), steps)
    ensures var t := Do(env, s, WriteReset(name, cred, expected, password));
            var u := Run(env, t, steps).t;
            && (PasswordHolds(u, name, password) <==>
                  NeverWritten(env, t, steps, name) || LastWritten(env, t, steps, name, password))
            && (Opens(u, name, password) <==>
                  && PasswordHolds(u, name, password)
                  && name in u.users && u.users[name].status == ACTIVE)
  {
    OpensFrom(env, Do(env, s, WriteReset(name, cred, expected, password)), steps, name, password);
  }

  // ---------------------------------------------------------------------------
  // Whether a password that was replaced can come back

  /** No step of the run but a rehash puts `password` in the hash of `name`: nobody chooses it again. */
  ghost predicate NoFresh(env: Env, s: State, steps: seq<Step>, name: string, password: string)
    requires Legal(env, s, steps)
    decreases |steps|
  {
    steps != [] ==>
      && (Written(s, steps[0], name) == Some(password) ==> steps[0].WriteRehash?)
      && NoFresh(env, Do(env, s, steps[0]), steps[1..], name, password)
  }

  /** Without being chosen again, the password can open the account again. */
  ghost predicate CanReturn(env: Env, s: State, name: string, password: string) {
    exists steps ::
      && Legal(env, s, steps) && NoFresh(env, s, steps, name, password)
      && Opens(Run(env, s, steps).t, name, password)
  }

  /** It does not verify, and no login that passed with it has a rehash to write. */
  ghost predicate ShutOut(s: State, name: string, password: string) {
    (name, password) !in s.logins && !PasswordHolds(s.t, name, password)
  }

  /** A login enters the list only with a password that verifies. */
  lemma LoginsVerified(env: Env, s: State, step: Step, name: string, password: string)
    requires Can(s, step) && (name, password) !in s.logins && !PasswordHolds(s.t, name, password)
    ensures (name, password) !in Do(env, s, step).logins
  {
    hide PasswordHolds, Create, ClaimOidc, Bind, SetUp, Reset, Rehash, SetStatus, CanSetUp, CanReset, CanClaimOidc,
         CanBind, Actionable, SeesPending, SeesProvider;
  }

  lemma StepShutsOut(env: Env, s: State, step: Step, name: string, password: string)
    requires Can(s, step) && ShutOut(s, name, password)
    requires Written(s, step, name) == Some(password) ==> step.WriteRehash?
    ensures ShutOut(Do(env, s, step), name, password)
  {
    hide PasswordHolds, Do;
    StepOpens(env, s, step, name, password);
    LoginsVerified(env, s, step, name, password);
  }

  lemma {:induction false} StaysShutOut(env: Env, s: State, steps: seq<Step>, name: string, password: string)
    requires Legal(env, s, steps) && NoFresh(env, s, steps, name, password) && ShutOut(s, name, password)
    ensures ShutOut(Run(env, s, steps), name, password)
    decreases |steps|
  {
    hide ShutOut, Written, Do, Can;
    if steps != [] {
      StepShutsOut(env, s, steps[0], name, password);
      StaysShutOut(env, Do(env, s, steps[0]), steps[1..], name, password);
    }
  }

  lemma TwoSteps(env: Env, s: State, a: Step, b: Step, name: string, password: string)
    requires Can(s, a) && Can(Do(env, s, a), b)
    ensures Legal(env, s, [a, b]) && Run(env, s, [a, b]) == Do(env, Do(env, s, a), b)
    ensures NoFresh(env, s, [a, b], name, password) <==>
            && (Written(s, a, name) == Some(password) ==> a.WriteRehash?)
            && (Written(Do(env, s, a), b, name) == Some(password) ==> b.WriteRehash?)
  {
    hide Can, Do, Written;
    assert [a, b][1..] == [b] && [b][1..] == [];
    var s1 := Do(env, s, a);
    var s2 := Do(env, s1, b);
    assert NoFresh(env, s2, [], name, password);
    assert Legal(env, s1, [b]) && Run(env, s1, [b]) == s2;
    assert NoFresh(env, s1, [b], name, password) <==>
           (Written(s1, b, name) == Some(password) ==> b.WriteRehash?);
  }

  lemma RehashOpens(t: Table, name: string, password: string)
    requires name in t.users
    ensures Opens(SetStatus(Rehash(t, name, password), name, ACTIVE), name, password)
  {
  }

  /** The run in which a login's rehash lands and the account is then switched on. */
  lemma RehashReturns(env: Env, s: State, name: string, password: string)
    requires name in s.t.users && (name, password) in s.logins
    ensures CanReturn(env, s, name, password)
  {
    hide Legal, Run, NoFresh, Opens, Rehash, SetStatus;
    var rehash, switchOn := WriteRehash(name, password), ChangeStatus(name, ACTIVE);
    TwoSteps(env, s, rehash, switchOn, name, password);
    RehashOpens(s.t, name, password);
    assert Opens(Run(env, s, [rehash, switchOn]).t, name, password);
  }

  /** **A password that no longer verifies can come back without being chosen again exactly when a login
      that passed with it has its rehash to write.** */
  lemma RestoredIff(env: Env, s: State, name: string, password: string)
    requires name in s.t.users && !PasswordHolds(s.t, name, password)
    ensures CanReturn(env, s, name, password) <==> (name, password) in s.logins
  {
    hide Legal, Run, NoFresh, PasswordHolds;
    if (name, password) in s.logins {
      RehashReturns(env, s, name, password);
    } else {
      forall steps | Legal(env, s, steps) && NoFresh(env, s, steps, name, password)
        ensures !Opens(Run(env, s, steps).t, name, password)
      {
        StaysShutOut(env, s, steps, name, password);
      }
    }
  }

  /** **A reset shuts the old password out for good exactly when no login that passed with it has its
      rehash to write at that moment.** */
  lemma ResetShutsOutIff(env: Env, s: State, name: string, cred: string, expected: Hash, after: string)
    requires (name, cred, expected) in s.posts && CanReset(s.t, name, expected)
    requires after != expected.password
    ensures CanReturn(env, Do(env, s, WriteReset(name, cred, expected, after)), name, expected.password) <==>
            (name, expected.password) in s.logins
  {
    hide CanReturn;
    RestoredIff(env, Do(env, s, WriteReset(name, cred, expected, after)), name, expected.password);
  }

  lemma RunSnoc(env: Env, s: State, steps: seq<Step>, step: Step)
    requires Legal(env, s, steps) && Can(Run(env, s, steps), step)
    ensures Legal(env, s, steps + [step]) && Run(env, s, steps + [step]) == Do(env, Run(env, s, steps), step)
    decreases |steps|
  {
    if steps == [] {
      assert [step][1..] == [] && steps + [step] == [step];
    } else {
      RunSnoc(env, Do(env, s, steps[0]), steps[1..], step);
      assert (steps + [step])[1..] == steps[1..] + [step];
    }
  }

  lemma ReachedStep(env: Env, s: State, step: Step)
    requires Reached(env, s) && Can(s, step)
    ensures Reached(env, Do(env, s, step))
  {
    var steps :| Legal(env, INITIAL, steps) && s == Run(env, INITIAL, steps);
    RunSnoc(env, INITIAL, steps, step);
  }

  lemma InitialReached(env: Env)
    ensures Reached(env, INITIAL)
  {
    assert Run(env, INITIAL, []) == INITIAL;
  }

  /** An account with a password, a login in flight and a link being posted. */
  lemma Prepared(env: Env, name: string, before: string) returns (s: State)
    ensures Reached(env, s) && (name, before) in s.logins && s.log == []
    ensures CanReset(s.t, name, Hash(0, before)) && (name, env.fingerprint(Hash(0, before)), Hash(0, before)) in s.posts
  {
    hide Reached;
    InitialReached(env);
    ReachedStep(env, INITIAL, CreateUser(name, Some(before), None, ACTIVE));
    s := Do(env, INITIAL, CreateUser(name, Some(before), None, ACTIVE));
    ReachedStep(env, s, LogIn(name, before, true));
    s := Do(env, s, LogIn(name, before, true));
    ReachedStep(env, s, MintReset(name));
    s := Do(env, s, MintReset(name));
    ReachedStep(env, s, PostReset(name, env.fingerprint(Hash(0, before))));
    s := Do(env, s, PostReset(name, env.fingerprint(Hash(0, before))));
  }

  /** **A successful reset can be undone**: a login with the old password that was verified before the
      reset writes its rehash after it, and the old password opens the account again. */
  lemma ResetUndone(env: Env, name: string, before: string, after: string) returns (s: State)
    ensures Reached(env, s) && |s.log| == 1 && s.log[0].WasReset? && s.log[0].name == name
    ensures Opens(s.t, name, before)
  {
    hide Reached;
    var hash := Hash(0, before);
    s := Prepared(env, name, before);
    ReachedStep(env, s, WriteReset(name, env.fingerprint(hash), hash, after));
    s := Do(env, s, WriteReset(name, env.fingerprint(hash), hash, after));
    ReachedStep(env, s, WriteRehash(name, before));
    s := Do(env, s, WriteRehash(name, before));
  }
}
