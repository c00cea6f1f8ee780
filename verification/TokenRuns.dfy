/** Runs of the token endpoint: any number of requests, each a read and later one write transaction,
    interleaved in any order with each other, with clean-ups, revocations and the clock. */
module TokenRuns {
  import opened IsoStamp
  import opened TokenTables

  /** One committed change, in commit order. An `Exchanged` or `Renewed` entry hands out an access
      token carrying `sid` and the refresh token `token`. */
  datatype Event =
    | Minted(code: string, user: string)
    | Exchanged(code: string, token: string, family: string, user: string, sid: string)
    | Renewed(spent: string, token: string, family: string, user: string, sid: string,
              rotated: bool, expiry: Stamp)
    | Burned(family: string)
    | Revoked(user: string)
  {
    predicate Issues() { Exchanged? || Renewed? }
  }

  datatype Birth = Birth(at: nat, family: string, user: string)
  datatype Minting = Minting(at: nat, user: string)

  /** The log with its indexes: where each secret first appears in it. */
  datatype History = History(
    log: seq<Event>,
    minted: map<string, Minting>,  // code -> the entry that minted it
    cashed: map<string, nat>,      // code -> the entry that exchanged it
    born: map<string, Birth>,      // refresh token -> the entry that issued it
    spent: map<string, nat>,       // refresh token -> the entry that renewed it
    roots: map<string, nat>)       // family -> the exchange that opened it
  {
    function Note(e: Event): History {
      this.(log := log + [e])
    }

    function NoteMint(code: string, user: string): History {
      Note(Minted(code, user)).(minted := minted[code := Minting(|log|, user)])
    }

    function NoteExchange(code: string, token: string, family: string, user: string, sid: string): History {
      Note(Exchanged(code, token, family, user, sid)).(
        cashed := cashed[code := |log|],
        born := born[token := Birth(|log|, family, user)],
        roots := roots[family := |log|])
    }

    function NoteRenewal(e: Event): History
      requires e.Renewed?
    {
      Note(e).(spent := spent[e.spent := |log|], born := born[e.token := Birth(|log|, e.family, e.user)])
    }
  }

  /** A read that passed its checks stays usable for any later write, any number of times: that
      covers every request still in flight, and more. */
  datatype State = State(
    tables: Tables,
    now: Stamp,
    codeReads: set<(string, CodeRow)>,
    tokenReads: set<(string, TokenRow)>,
    replays: set<string>,
    h: History)

  datatype Step =
    | Tick(to: Stamp)
    | Mint(code: string, row: CodeRow)
    | LookUpCode(form: CodeForm, canSign: bool)
    | WriteExchange(code: string, row: CodeRow, token: string, family: string, expires: Stamp)
    | LookUpToken(refresh: RefreshForm, canSign: bool)
    | WriteRenewal(rotate: bool, shown: string, held: TokenRow, token: string, expires: Stamp)
    | WriteBurn(family: string)
    | RevokeAll(user: string)

  ghost function Start(now: Stamp): State {
    State(Tables(map[], map[]), now, {}, {}, {}, History([], map[], map[], map[], map[], map[]))
  }

  /** When a step may be taken: the clock is monotone, secrets and families are fresh, and a write
      follows a read that allowed it. The renewal mode is free at every write. */
  ghost predicate Can(s: State, step: Step) {
    match step
    case Tick(to) => !to.Before(s.now)
    case Mint(code, row) => code !in s.h.minted && !row.used
    case LookUpCode(_, _) => true
    case WriteExchange(code, row, token, family, _) =>
      (code, row) in s.codeReads && token !in s.h.born && family !in s.h.roots
    case LookUpToken(_, _) => true
    case WriteRenewal(_, shown, held, token, _) => (shown, held) in s.tokenReads && token !in s.h.born
    case WriteBurn(family) => family in s.replays
    case RevokeAll(_) => true
  }

  ghost function Do(env: Env, s: State, step: Step): State
    requires Can(s, step)
  {
    match step
    case Tick(to) => s.(now := to)
    case Mint(code, row) =>
      s.(tables := MintCode(s.tables, code, row, s.now), h := s.h.NoteMint(code, row.user))
    case LookUpCode(form, canSign) =>
      var read := ReadCode(env, s.tables, form, s.now, canSign);
      if read.CodeReady? then s.(codeReads := s.codeReads + {(read.code, read.row)}) else s
    case WriteExchange(code, row, token, family, expires) =>
      if !Unused(s.tables, code) then s
      else s.(tables := Exchange(s.tables, code, row, token, family, expires),
              h := s.h.NoteExchange(code, token, family, row.user, env.sid(family)))
    case LookUpToken(form, canSign) =>
      (match ReadToken(s.tables, form, s.now, canSign)
       case TokenReady(token, row) => s.(tokenReads := s.tokenReads + {(token, row)})
       case Replayed(family) => s.(replays := s.replays + {family})
       case TokenDenied(_) => s)
    case WriteRenewal(rotate, shown, held, token, expires) =>
      if !Live(s.tables, shown) then s
      else s.(tables := if rotate then Rotate(s.tables, shown, held, token, expires, s.now)
                        else Overwrite(s.tables, shown, token, expires),
              h := s.h.NoteRenewal(Renewed(shown, token, held.family, held.user, env.sid(held.family),
                                           rotate, s.tables.tokens[shown].expires)))
    case WriteBurn(family) =>
      s.(tables := BurnFamily(s.tables, family), h := s.h.Note(Burned(family)))
    case RevokeAll(user) =>
      s.(tables := RevokeUser(s.tables, user), h := s.h.Note(Revoked(user)))
  }

  ghost predicate Legal(env: Env, s: State, steps: seq<Step>)
    decreases |steps|
  {
    steps != [] ==> Can(s, steps[0]) && Legal(env, Do(env, s, steps[0]), steps[1..])
  }

  ghost function Run(env: Env, s: State, steps: seq<Step>): State
    requires Legal(env, s, steps)
    decreases |steps|
  {
    if steps == [] then s else Run(env, Do(env, s, steps[0]), steps[1..])
  }

  // ---------------------------------------------------------------------------
  // The invariant

  ghost predicate IssuedAs(h: History, t: string, b: Birth) {
    b.at < |h.log| && h.log[b.at].Issues()
    && h.log[b.at].token == t && h.log[b.at].family == b.family && h.log[b.at].user == b.user
    && b.family in h.roots && h.roots[b.family] <= b.at
  }

  /** The indexes point at the entries they stand for. */
  ghost predicate IndexesPoint(h: History) {
    && (forall c :: c in h.minted ==> h.minted[c].at < |h.log| && h.log[h.minted[c].at] == Minted(c, h.minted[c].user))
    && (forall t :: t in h.born ==> IssuedAs(h, t, h.born[t]))
    && (forall f :: f in h.roots ==>
          h.roots[f] < |h.log| && h.log[h.roots[f]].Exchanged? && h.log[h.roots[f]].family == f)
  }

  /** Every entry is the one its secrets are indexed under, and follows from earlier ones. */
  ghost predicate EntryIndexed(env: Env, h: History, i: nat, e: Event) {
    match e
    case Minted(code, user) => code in h.minted && h.minted[code] == Minting(i, user)
    case Exchanged(code, token, family, user, sid) =>
      && code in h.minted && h.minted[code].at < i && h.minted[code].user == user
      && code in h.cashed && h.cashed[code] == i
      && token in h.born && h.born[token] == Birth(i, family, user)
      && family in h.roots && h.roots[family] == i
      && sid == env.sid(family)
    case Renewed(spent, token, family, user, sid, _, _) =>
      && spent in h.born && h.born[spent].at < i && h.born[spent].family == family && h.born[spent].user == user
      && spent in h.spent && h.spent[spent] == i
      && token in h.born && h.born[token] == Birth(i, family, user)
      && sid == env.sid(family)
    case Burned(family) => family in h.roots && h.roots[family] < i
    case Revoked(_) => true
  }

  ghost predicate Indexed(env: Env, h: History) {
    && IndexesPoint(h)
    && forall i :: 0 <= i < |h.log| ==> EntryIndexed(env, h, i, h.log[i])
  }

  /** `row` belongs to the lineage that issued `token`. */
  ghost predicate Belongs(h: History, token: string, row: TokenRow) {
    && token in h.born && h.born[token].family == row.family && h.born[token].user == row.user
    && row.family in h.roots
  }

  ghost predicate CodesAgree(t: Tables, h: History, passed: set<(string, CodeRow)>) {
    && (forall c :: c in t.codes ==> c in h.minted && h.minted[c].user == t.codes[c].user)
    && (forall p :: p in passed ==> p.0 in h.minted && h.minted[p.0].user == p.1.user)
    && (forall c :: c in h.cashed ==> c in h.minted && !Unused(t, c))
  }

  ghost predicate RowsBelong(t: Tables, h: History) {
    && (forall k :: k in t.tokens ==> Belongs(h, k, t.tokens[k]))
    && (forall k :: k in h.spent ==> k in h.born && !Live(t, k))
  }

  ghost predicate OneLivePerFamily(t: Tables) {
    forall a, b :: Live(t, a) && Live(t, b) && t.tokens[a].family == t.tokens[b].family ==> a == b
  }

  ghost predicate FamilyDead(t: Tables, family: string) {
    forall k :: Live(t, k) ==> t.tokens[k].family != family
  }

  /** A family that was burned has no live row. */
  ghost predicate BurnsHold(t: Tables, h: History) {
    forall i :: 0 <= i < |h.log| && h.log[i].Burned? ==> FamilyDead(t, h.log[i].family)
  }

  ghost predicate OnlyLater(t: Tables, h: History, user: string, i: nat) {
    forall k :: Live(t, k) && t.tokens[k].user == user ==>
      t.tokens[k].family in h.roots && i < h.roots[t.tokens[k].family]
  }

  /** A row still live after its user was revoked belongs to a lineage opened later. */
  ghost predicate RevocationsHold(t: Tables, h: History) {
    forall i :: 0 <= i < |h.log| && h.log[i].Revoked? ==> OnlyLater(t, h, h.log[i].user, i)
  }

  /** A token renewed by rotation keeps its revoked row until it expires; one overwritten has none. */
  ghost predicate SpentRowKept(t: Tables, now: Stamp, e: Event)
    requires e.Renewed?
  {
    if !e.rotated then e.spent !in t.tokens
    else if e.spent in t.tokens then
      var row := t.tokens[e.spent];
      row.revoked && row.family == e.family && row.expires == e.expiry
    else Expired(e.expiry, now)
  }

  ghost predicate SpentRowsKept(t: Tables, h: History, now: Stamp) {
    forall i :: 0 <= i < |h.log| && h.log[i].Renewed? ==> SpentRowKept(t, now, h.log[i])
  }

  ghost predicate TokenInv(t: Tables, h: History, now: Stamp) {
    RowsBelong(t, h) && OneLivePerFamily(t) && BurnsHold(t, h) && RevocationsHold(t, h) && SpentRowsKept(t, h, now)
  }

  ghost predicate ReadsAgree(s: State) {
    && (forall p :: p in s.tokenReads ==> Belongs(s.h, p.0, p.1))
    && (forall f :: f in s.replays ==> f in s.h.roots)
  }

  ghost predicate Inv(env: Env, s: State) {
    Indexed(env, s.h) && CodesAgree(s.tables, s.h, s.codeReads) && ReadsAgree(s) && TokenInv(s.tables, s.h, s.now)
  }

  // ---------------------------------------------------------------------------
  // Losing rows

  /** `u` has only rows of `t`, some of them revoked since; a lost row was live or is past its expiry. */
  ghost predicate Fewer(t: Tables, u: Tables, now: Stamp) {
    && (forall k :: k in u.tokens ==>
         k in t.tokens && (u.tokens[k] == t.tokens[k] || u.tokens[k] == t.tokens[k].(revoked := true)))
    && (forall k :: k in t.tokens && k !in u.tokens ==> Live(t, k) || Expired(t.tokens[k].expires, now))
  }

  lemma FewerKeeps(t: Tables, u: Tables, h: History, now: Stamp)
    requires TokenInv(t, h, now) && Fewer(t, u, now)
    requires forall i :: 0 <= i < |h.log| && h.log[i].Renewed? ==> h.log[i].spent in h.spent
    ensures TokenInv(u, h, now)
  {
    forall k | Live(u, k) ensures Live(t, k) && u.tokens[k] == t.tokens[k] {}
    forall i | 0 <= i < |h.log| && h.log[i].Renewed? ensures SpentRowKept(u, now, h.log[i]) {
      assert SpentRowKept(t, now, h.log[i]);
    }
    forall i | 0 <= i < |h.log| && h.log[i].Burned? ensures FamilyDead(u, h.log[i].family) {
      assert FamilyDead(t, h.log[i].family);
    }
    forall i | 0 <= i < |h.log| && h.log[i].Revoked? ensures OnlyLater(u, h, h.log[i].user, i) {
      assert OnlyLater(t, h, h.log[i].user, i);
    }
  }

  // ---------------------------------------------------------------------------
  // Gaining an entry, and gaining a row

  /** `g` is `h` with one more entry, and indexes that only grew. */
  ghost predicate Extends(h: History, g: History, e: Event) {
    && g.log == h.log + [e]
    && (forall c :: c in h.minted ==> c in g.minted && g.minted[c] == h.minted[c])
    && (forall c :: c in h.cashed ==> c in g.cashed && g.cashed[c] == h.cashed[c])
    && (forall t :: t in h.born ==> t in g.born && g.born[t] == h.born[t])
    && (forall t :: t in h.spent ==> t in g.spent && g.spent[t] == h.spent[t])
    && (forall f :: f in h.roots ==> f in g.roots && g.roots[f] == h.roots[f])
  }

  lemma EntriesLast(env: Env, h: History, g: History, e: Event)
    requires Indexed(env, h) && Extends(h, g, e)
    requires EntryIndexed(env, g, |h.log|, e)
    requires IndexesPoint(g)
    ensures Indexed(env, g)
  {
    forall i | 0 <= i < |g.log| ensures EntryIndexed(env, g, i, g.log[i]) {
      if i < |h.log| {
        assert EntryIndexed(env, h, i, h.log[i]);
      }
    }
  }

  lemma BirthsLast(h: History, g: History, e: Event)
    requires IndexesPoint(h) && Extends(h, g, e)
    ensures forall t :: t in h.born ==> IssuedAs(g, t, g.born[t])
  {
    forall t | t in h.born ensures IssuedAs(g, t, g.born[t]) {
      assert IssuedAs(h, t, h.born[t]);
    }
  }

  /** What a note that issues no token leaves true. */
  lemma NoteKeeps(t: Tables, h: History, g: History, e: Event, now: Stamp)
    requires TokenInv(t, h, now) && Extends(h, g, e) && g.spent == h.spent
    requires !e.Issues()
    requires e.Burned? ==> FamilyDead(t, e.family)
    requires e.Revoked? ==> OnlyLater(t, g, e.user, |h.log|)
    ensures TokenInv(t, g, now)
  {
    forall i | 0 <= i < |g.log| && g.log[i].Revoked? ensures OnlyLater(t, g, g.log[i].user, i) {
      if i < |h.log| {
        assert OnlyLater(t, h, h.log[i].user, i);
      }
    }
    forall i | 0 <= i < |g.log| && g.log[i].Burned? ensures FamilyDead(t, g.log[i].family) {
      if i < |h.log| {
        assert FamilyDead(t, h.log[i].family);
      }
    }
    forall i | 0 <= i < |g.log| && g.log[i].Renewed? ensures SpentRowKept(t, now, g.log[i]) {
      assert SpentRowKept(t, now, h.log[i]);
    }
  }

  /** `row` may join the table as the live row of its family. */
  ghost predicate MayJoin(t: Tables, g: History, row: TokenRow) {
    && !row.revoked && row.family in g.roots
    && FamilyDead(t, row.family)
    && (forall i :: 0 <= i < |g.log| && g.log[i].Burned? ==> g.log[i].family != row.family)
    && (forall i :: 0 <= i < |g.log| && g.log[i].Revoked? && g.log[i].user == row.user ==> i < g.roots[row.family])
  }

  lemma InsertKeeps(t: Tables, h: History, g: History, e: Event, token: string, row: TokenRow, now: Stamp)
    requires TokenInv(t, h, now) && Extends(h, g, e)
    requires e.Issues() && token !in h.born && Belongs(g, token, row) && MayJoin(t, g, row)
    requires forall i :: 0 <= i < |h.log| && h.log[i].Renewed? ==> h.log[i].spent in h.spent
    requires e.Exchanged? ==> g.spent == h.spent
    requires e.Renewed? ==> e.spent in h.born && !Live(t, e.spent) && SpentRowKept(t, now, e)
    requires e.Renewed? ==> g.spent == h.spent[e.spent := |h.log|]
    ensures TokenInv(InsertToken(t, token, row), g, now)
  {
    InsertBelongs(t, h, g, e, token, row);
    hide RowsBelong, Extends, MayJoin;
    InsertLog(t, h, g, e, token, row, now);
  }

  lemma InsertBelongs(t: Tables, h: History, g: History, e: Event, token: string, row: TokenRow)
    requires RowsBelong(t, h) && OneLivePerFamily(t) && Extends(h, g, e)
    requires token !in h.born && Belongs(g, token, row) && MayJoin(t, g, row)
    requires e.Exchanged? ==> g.spent == h.spent
    requires e.Issues()
    requires e.Renewed? ==> e.spent in h.born && !Live(t, e.spent) && g.spent == h.spent[e.spent := |h.log|]
    ensures RowsBelong(InsertToken(t, token, row), g) && OneLivePerFamily(InsertToken(t, token, row))
  {
    hide BurnsHold, RevocationsHold, SpentRowsKept, OneLivePerFamily, FamilyDead;
    InsertOneLive(t, h, g, token, row);
  }

  lemma InsertOneLive(t: Tables, h: History, g: History, token: string, row: TokenRow)
    requires RowsBelong(t, h) && OneLivePerFamily(t) && token !in h.born && MayJoin(t, g, row)
    ensures OneLivePerFamily(InsertToken(t, token, row))
  {
    hide BurnsHold, RevocationsHold, SpentRowsKept;
    var u := InsertToken(t, token, row);
    forall k | Live(u, k) ensures k == token || (Live(t, k) && u.tokens[k] == t.tokens[k]) {}
  }

  lemma InsertLog(t: Tables, h: History, g: History, e: Event, token: string, row: TokenRow, now: Stamp)
    requires RowsBelong(t, h) && BurnsHold(t, h) && RevocationsHold(t, h) && SpentRowsKept(t, h, now)
             && Extends(h, g, e)
    requires e.Issues() && token !in h.born && MayJoin(t, g, row)
    requires forall i :: 0 <= i < |h.log| && h.log[i].Renewed? ==> h.log[i].spent in h.spent
    requires e.Renewed? ==> e.spent in h.born && SpentRowKept(t, now, e)
    ensures BurnsHold(InsertToken(t, token, row), g) && RevocationsHold(InsertToken(t, token, row), g)
    ensures SpentRowsKept(InsertToken(t, token, row), g, now)
  {
    var u := InsertToken(t, token, row);
    forall k | Live(u, k) ensures k == token || (Live(t, k) && u.tokens[k] == t.tokens[k]) {}
    forall i | 0 <= i < |g.log| && g.log[i].Revoked? ensures OnlyLater(u, g, g.log[i].user, i) {
      assert OnlyLater(t, h, h.log[i].user, i);
    }
    forall i | 0 <= i < |g.log| && g.log[i].Burned? ensures FamilyDead(u, g.log[i].family) {
      assert FamilyDead(t, h.log[i].family);
    }
    forall i | 0 <= i < |g.log| && g.log[i].Renewed? ensures SpentRowKept(u, now, g.log[i]) {
      if i < |h.log| {
        assert SpentRowKept(t, now, h.log[i]);
      }
    }
  }

  // ---------------------------------------------------------------------------
  // The log of each step

  lemma EntriesKnown(env: Env, h: History)
    requires Indexed(env, h)
    ensures forall i :: 0 <= i < |h.log| && h.log[i].Renewed? ==> h.log[i].spent in h.spent
    ensures forall i :: 0 <= i < |h.log| && h.log[i].Burned? ==> h.log[i].family in h.roots
  {
    forall i | 0 <= i < |h.log| && (h.log[i].Renewed? || h.log[i].Burned?) ensures EntryIndexed(env, h, i, h.log[i]) {}
  }

  lemma MintIndexed(env: Env, h: History, code: string, user: string)
    requires Indexed(env, h) && code !in h.minted
    ensures Indexed(env, h.NoteMint(code, user)) && Extends(h, h.NoteMint(code, user), Minted(code, user))
  {
    hide Extends, EntryIndexed;
    var g, e := h.NoteMint(code, user), Minted(code, user);
    MintPoints(h, code, user);
    EntriesLast(env, h, g, e);
  }

  lemma MintPoints(h: History, code: string, user: string)
    requires IndexesPoint(h) && code !in h.minted
    ensures IndexesPoint(h.NoteMint(code, user)) && Extends(h, h.NoteMint(code, user), Minted(code, user))
  {
    BirthsLast(h, h.NoteMint(code, user), Minted(code, user));
  }

  lemma NoteIndexed(env: Env, h: History, e: Event)
    requires Indexed(env, h) && (e.Revoked? || (e.Burned? && e.family in h.roots))
    ensures Indexed(env, h.Note(e)) && Extends(h, h.Note(e), e)
  {
    BirthsLast(h, h.Note(e), e);
    EntriesLast(env, h, h.Note(e), e);
  }

  lemma ExchangeExtends(h: History, code: string, token: string, family: string, user: string, sid: string)
    requires token !in h.born && family !in h.roots && code !in h.cashed
    ensures Extends(h, h.NoteExchange(code, token, family, user, sid), Exchanged(code, token, family, user, sid))
  {
  }

  lemma ExchangePoints(h: History, code: string, token: string, family: string, user: string, sid: string)
    requires IndexesPoint(h) && token !in h.born && family !in h.roots && code !in h.cashed
    ensures IndexesPoint(h.NoteExchange(code, token, family, user, sid))
    ensures Extends(h, h.NoteExchange(code, token, family, user, sid), Exchanged(code, token, family, user, sid))
  {
    hide Extends;
    ExchangeExtends(h, code, token, family, user, sid);
    BirthsLast(h, h.NoteExchange(code, token, family, user, sid), Exchanged(code, token, family, user, sid));
  }

  lemma ExchangeIndexed(env: Env, h: History, code: string, token: string, family: string, user: string)
    requires Indexed(env, h) && code in h.minted && h.minted[code].user == user
    requires code !in h.cashed && token !in h.born && family !in h.roots
    ensures Indexed(env, h.NoteExchange(code, token, family, user, env.sid(family)))
    ensures Extends(h, h.NoteExchange(code, token, family, user, env.sid(family)),
                    Exchanged(code, token, family, user, env.sid(family)))
  {
    hide Extends, IndexesPoint;
    assert h.minted[code].at < |h.log| by { MintedEarlier(h, code); }
    ExchangePoints(h, code, token, family, user, env.sid(family));
    EntriesLast(env, h, h.NoteExchange(code, token, family, user, env.sid(family)),
                Exchanged(code, token, family, user, env.sid(family)));
  }

  lemma MintedEarlier(h: History, code: string)
    requires IndexesPoint(h) && code in h.minted
    ensures h.minted[code].at < |h.log|
  {
  }

  lemma RenewalExtends(h: History, e: Event)
    requires e.Renewed? && e.spent !in h.spent && e.token !in h.born
    ensures Extends(h, h.NoteRenewal(e), e)
  {
  }

  lemma RenewalPoints(h: History, e: Event)
    requires IndexesPoint(h) && e.Renewed? && e.spent !in h.spent && e.token !in h.born
    requires e.spent in h.born && h.born[e.spent].family == e.family && h.born[e.spent].user == e.user
    ensures IndexesPoint(h.NoteRenewal(e)) && Extends(h, h.NoteRenewal(e), e)
    ensures h.born[e.spent].at < |h.log|
  {
    hide Extends;
    assert IssuedAs(h, e.spent, h.born[e.spent]);
    RenewalExtends(h, e);
    BirthsLast(h, h.NoteRenewal(e), e);
  }

  lemma RenewalIndexed(env: Env, h: History, e: Event)
    requires Indexed(env, h) && e.Renewed? && e.sid == env.sid(e.family)
    requires e.spent in h.born && h.born[e.spent].family == e.family && h.born[e.spent].user == e.user
    requires e.spent !in h.spent && e.token !in h.born
    ensures Indexed(env, h.NoteRenewal(e)) && Extends(h, h.NoteRenewal(e), e)
  {
    hide Extends, IndexesPoint;
    RenewalPoints(h, e);
    EntriesLast(env, h, h.NoteRenewal(e), e);
  }

  lemma ReadsLast(s: State, u: Tables, g: History, e: Event)
    requires ReadsAgree(s) && Extends(s.h, g, e)
    ensures ReadsAgree(s.(tables := u, h := g))
  {
    forall p | p in s.tokenReads ensures Belongs(g, p.0, p.1) {
      assert Belongs(s.h, p.0, p.1);
    }
  }

  lemma CodesLast(t: Tables, u: Tables, h: History, g: History, e: Event, passed: set<(string, CodeRow)>)
    requires CodesAgree(t, h, passed) && Extends(h, g, e) && u.codes == t.codes && g.cashed == h.cashed
    ensures CodesAgree(u, g, passed)
  {
  }

  // ---------------------------------------------------------------------------
  // Each step keeps the invariant

  lemma TickKeeps(env: Env, s: State, to: Stamp)
    requires Inv(env, s) && !to.Before(s.now)
    ensures Inv(env, s.(now := to))
  {
    hide RowsBelong, OneLivePerFamily, BurnsHold, RevocationsHold, Indexed, CodesAgree;
    forall i | 0 <= i < |s.h.log| && s.h.log[i].Renewed? ensures SpentRowKept(s.tables, to, s.h.log[i]) {
      assert SpentRowKept(s.tables, s.now, s.h.log[i]);
      if s.h.log[i].rotated {
        ExpiredIsPast(s.h.log[i].expiry, s.now, to);
      }
    }
  }

  lemma MintCodes(t: Tables, h: History, passed: set<(string, CodeRow)>, code: string, row: CodeRow, now: Stamp)
    requires CodesAgree(t, h, passed) && code !in h.minted
    ensures CodesAgree(MintCode(t, code, row, now), h.NoteMint(code, row.user), passed)
  {
  }

  lemma MintKeeps(env: Env, s: State, code: string, row: CodeRow)
    requires Inv(env, s) && Can(s, Mint(code, row))
    ensures Inv(env, Do(env, s, Mint(code, row)))
  {
    hide TokenInv, Indexed, CodesAgree, ReadsAgree, Extends;
    var g, e := s.h.NoteMint(code, row.user), Minted(code, row.user);
    var u := MintCode(s.tables, code, row, s.now);
    MintIndexed(env, s.h, code, row.user);
    EntriesKnown(env, s.h);
    FewerKeeps(s.tables, u, s.h, s.now);
    NoteKeeps(u, s.h, g, e, s.now);
    ReadsLast(s, u, g, e);
    MintCodes(s.tables, s.h, s.codeReads, code, row, s.now);
  }

  lemma LookUpCodeKeeps(env: Env, s: State, form: CodeForm, canSign: bool)
    requires Inv(env, s)
    ensures Inv(env, Do(env, s, LookUpCode(form, canSign)))
  {
    hide TokenInv, Indexed;
  }

  lemma LookUpTokenKeeps(env: Env, s: State, form: RefreshForm, canSign: bool)
    requires Inv(env, s)
    ensures Inv(env, Do(env, s, LookUpToken(form, canSign)))
  {
    hide OneLivePerFamily, BurnsHold, RevocationsHold, SpentRowsKept, Indexed, CodesAgree;
  }

  lemma ExchangeCodes(t: Tables, h: History, passed: set<(string, CodeRow)>, code: string, row: CodeRow,
                      token: string, family: string, expires: Stamp, sid: string)
    requires CodesAgree(t, h, passed) && (code, row) in passed && Unused(t, code)
    ensures code in h.minted && h.minted[code].user == row.user && code !in h.cashed
    ensures CodesAgree(Exchange(t, code, row, token, family, expires),
                       h.NoteExchange(code, token, family, row.user, sid), passed)
  {
  }

  lemma ExchangeKeeps(env: Env, s: State, code: string, row: CodeRow, token: string, family: string, expires: Stamp)
    requires Inv(env, s) && Can(s, WriteExchange(code, row, token, family, expires))
    ensures Inv(env, Do(env, s, WriteExchange(code, row, token, family, expires)))
  {
    hide Indexed, CodesAgree, ReadsAgree, OneLivePerFamily, BurnsHold, RevocationsHold, SpentRowsKept;
    if Unused(s.tables, code) {
      var h, g := s.h, s.h.NoteExchange(code, token, family, row.user, env.sid(family));
      var e := Exchanged(code, token, family, row.user, env.sid(family));
      ExchangeCodes(s.tables, h, s.codeReads, code, row, token, family, expires, env.sid(family));
      ExchangeIndexed(env, h, code, token, family, row.user);
      EntriesKnown(env, h);
      var mid := s.tables.(codes := s.tables.codes[code := s.tables.codes[code].(used := true)]);
      var joined := TokenRow(family, row.client, row.user, expires, false);
      FewerKeeps(s.tables, mid, h, s.now);
      assert FamilyDead(mid, family) by {
        assert forall k :: k in s.tables.tokens ==> Belongs(h, k, s.tables.tokens[k]);
      }
      InsertKeeps(mid, h, g, e, token, joined, s.now);
      ReadsLast(s, InsertToken(mid, token, joined), g, e);
    }
  }

  /** What is left of the table when `shown` has been spent and its successor is not in yet. */
  ghost function Spend(t: Tables, rotate: bool, shown: string, now: Stamp): Tables
    requires Live(t, shown)
  {
    if rotate then CleanTokens(t.(tokens := t.tokens[shown := t.tokens[shown].(revoked := true)]), now)
    else t.(tokens := t.tokens - {shown})
  }

  lemma SpendFewer(t: Tables, rotate: bool, shown: string, now: Stamp, e: Event)
    requires Live(t, shown) && OneLivePerFamily(t)
    requires e.Renewed? && e.spent == shown && e.rotated == rotate
    requires e.family == t.tokens[shown].family && e.expiry == t.tokens[shown].expires
    ensures Fewer(t, Spend(t, rotate, shown, now), now)
    ensures FamilyDead(Spend(t, rotate, shown, now), t.tokens[shown].family)
    ensures !Live(Spend(t, rotate, shown, now), shown)
    ensures SpentRowKept(Spend(t, rotate, shown, now), now, e)
  {
  }

  /** The successor of a live row may take its place. */
  lemma SuccessorJoins(t: Tables, h: History, g: History, e: Event, shown: string, mid: Tables, joined: TokenRow)
    requires Live(t, shown) && BurnsHold(t, h) && RevocationsHold(t, h)
    requires e.Renewed? && g.log == h.log + [e] && g.roots == h.roots
    requires joined.family == t.tokens[shown].family && joined.user == t.tokens[shown].user && !joined.revoked
    requires joined.family in h.roots && FamilyDead(mid, joined.family)
    ensures MayJoin(mid, g, joined)
  {
    forall i | 0 <= i < |g.log| && g.log[i].Burned? ensures g.log[i].family != joined.family {
      assert FamilyDead(t, h.log[i].family);
    }
    forall i | 0 <= i < |g.log| && g.log[i].Revoked? && g.log[i].user == joined.user
      ensures i < g.roots[joined.family]
    {
      assert OnlyLater(t, h, h.log[i].user, i);
    }
  }

  lemma RenewalTables(env: Env, s: State, rotate: bool, shown: string, held: TokenRow, token: string, expires: Stamp)
    requires Can(s, WriteRenewal(rotate, shown, held, token, expires)) && Live(s.tables, shown)
    ensures Do(env, s, WriteRenewal(rotate, shown, held, token, expires)).tables ==
            InsertToken(Spend(s.tables, rotate, shown, s.now), token,
                        if rotate then TokenRow(held.family, held.client, held.user, expires, false)
                        else s.tables.tokens[shown].(expires := expires))
    ensures Spend(s.tables, rotate, shown, s.now).codes == s.tables.codes
  {
  }

  lemma RenewalKeeps(env: Env, s: State, rotate: bool, shown: string, held: TokenRow, token: string, expires: Stamp)
    requires Inv(env, s) && Can(s, WriteRenewal(rotate, shown, held, token, expires))
    ensures Inv(env, Do(env, s, WriteRenewal(rotate, shown, held, token, expires)))
  {
    hide Indexed, CodesAgree, OneLivePerFamily, BurnsHold, RevocationsHold, SpentRowsKept, FamilyDead, SpentRowKept,
         MayJoin, Fewer, Spend, Rotate, Overwrite, CleanTokens;
    if Live(s.tables, shown) {
      var row := s.tables.tokens[shown];
      var e := Renewed(shown, token, held.family, held.user, env.sid(held.family), rotate, row.expires);
      var h, g := s.h, s.h.NoteRenewal(e);
      var mid := Spend(s.tables, rotate, shown, s.now);
      var joined := if rotate then TokenRow(held.family, held.client, held.user, expires, false)
                    else row.(expires := expires);
      assert (shown, held) in s.tokenReads;
      assert Belongs(h, shown, held) && Belongs(h, shown, row);
      RenewalIndexed(env, h, e);
      EntriesKnown(env, h);
      SpendFewer(s.tables, rotate, shown, s.now, e);
      FewerKeeps(s.tables, mid, h, s.now);
      SuccessorJoins(s.tables, h, g, e, shown, mid, joined);
      InsertKeeps(mid, h, g, e, token, joined, s.now);
      RenewalTables(env, s, rotate, shown, held, token, expires);
      ReadsLast(s, InsertToken(mid, token, joined), g, e);
      CodesLast(s.tables, InsertToken(mid, token, joined), h, g, e, s.codeReads);
    }
  }

  lemma RevokingKeeps(env: Env, s: State, which: TokenRow -> bool, e: Event)
    requires Inv(env, s) && (e.Revoked? || (e.Burned? && e.family in s.h.roots))
    requires e.Burned? ==> forall r: TokenRow :: r.family == e.family ==> which(r)
    requires e.Revoked? ==> forall r: TokenRow :: r.user == e.user && !r.revoked ==> which(r)
    ensures Inv(env, s.(tables := RevokeWhere(s.tables, which), h := s.h.Note(e)))
  {
    hide TokenInv, Indexed, CodesAgree, ReadsAgree, Extends;
    var u, g := RevokeWhere(s.tables, which), s.h.Note(e);
    NoteIndexed(env, s.h, e);
    EntriesKnown(env, s.h);
    FewerKeeps(s.tables, u, s.h, s.now);
    NoteKeeps(u, s.h, g, e, s.now);
    ReadsLast(s, u, g, e);
    CodesLast(s.tables, u, s.h, g, e, s.codeReads);
  }

  lemma StepKeeps(env: Env, s: State, step: Step)
    requires Inv(env, s) && Can(s, step)
    ensures Inv(env, Do(env, s, step))
  {
    hide Indexed, CodesAgree, TokenInv;
    match step
    case Tick(to) => TickKeeps(env, s, to);
    case Mint(code, row) => MintKeeps(env, s, code, row);
    case LookUpCode(form, canSign) => LookUpCodeKeeps(env, s, form, canSign);
    case WriteExchange(code, row, token, family, expires) => ExchangeKeeps(env, s, code, row, token, family, expires);
    case LookUpToken(form, canSign) => LookUpTokenKeeps(env, s, form, canSign);
    case WriteRenewal(rotate, shown, held, token, expires) => RenewalKeeps(env, s, rotate, shown, held, token, expires);
    case WriteBurn(family) => RevokingKeeps(env, s, (r: TokenRow) => r.family == family, Burned(family));
    case RevokeAll(user) => RevokingKeeps(env, s, (r: TokenRow) => r.user == user && !r.revoked, Revoked(user));
  }

  /** The invariant holds after every run. */
  lemma {:induction false} RunKeeps(env: Env, s: State, steps: seq<Step>)
    requires Inv(env, s) && Legal(env, s, steps)
    ensures Inv(env, Run(env, s, steps))
    decreases |steps|
  {
    hide Inv;
    if steps != [] {
      StepKeeps(env, s, steps[0]);
      RunKeeps(env, Do(env, s, steps[0]), steps[1..]);
    }
  }
}
