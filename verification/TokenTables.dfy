/** The authorization-code and refresh-token tables: what each grant reads and what it writes. */
module TokenTables {
  import opened IsoStamp

  datatype CodeRow = CodeRow(
    client: string, redirect: string, challenge: string, user: string, expires: Stamp, used: bool)

  datatype TokenRow = TokenRow(family: string, client: string, user: string, expires: Stamp, revoked: bool)

  /** `oauth_state` by code and `oauth_refresh_token` by token. Only a hash of the token is stored;
      the hash is taken to be injective, so the token itself is the key here. */
  datatype Tables = Tables(codes: map<string, CodeRow>, tokens: map<string, TokenRow>)

  /** `challenge` is base64url(sha256(·)) and `sid` the truncated hash of a family. */
  datatype Env = Env(challenge: string -> string, sid: string -> string)

  datatype CodeForm = CodeForm(code: string, redirect: string, verifier: string)
  datatype RefreshForm = RefreshForm(token: string, client: string)

  datatype Error =
    | CodeInvalid | CodeExpired | RedirectMismatch | PkceFailed | CannotSign
    | TokenRequired | TokenInvalid | TokenRevoked | TokenExpired | ClientMismatch

  /** What a grant knows after its lookup and its checks, before it writes. */
  datatype CodeRead = CodeDenied(error: Error) | CodeReady(code: string, row: CodeRow)
  datatype TokenRead = TokenDenied(error: Error) | Replayed(family: string) | TokenReady(token: string, row: TokenRow)

  /** The answer of a finished grant: an access token for `user` with its `sid`, and a refresh token. */
  datatype Answer = Issued(user: string, sid: string, refresh: string) | Refused(error: Error)

  // ---------------------------------------------------------------------------
  // Reads

  /** `_verify_pkce` */
  predicate PkceHolds(env: Env, verifier: string, challenge: string) {
    verifier != "" && challenge != "" && env.challenge(verifier) == challenge
  }

  /** `_grant_authorization_code` up to its write. */
  function ReadCode(env: Env, t: Tables, form: CodeForm, now: Stamp, canSign: bool): CodeRead {
    if form.code !in t.codes || t.codes[form.code].used then CodeDenied(CodeInvalid)
    else
      var row := t.codes[form.code];
      if Expired(row.expires, now) then CodeDenied(CodeExpired)
      else if form.redirect != row.redirect then CodeDenied(RedirectMismatch)
      else if !PkceHolds(env, form.verifier, row.challenge) then CodeDenied(PkceFailed)
      else if !canSign then CodeDenied(CannotSign)
      else CodeReady(form.code, row)
  }

  /** `_grant_refresh_token` up to its write. */
  function ReadToken(t: Tables, form: RefreshForm, now: Stamp, canSign: bool): TokenRead {
    if form.token == "" then TokenDenied(TokenRequired)
    else if !canSign then TokenDenied(CannotSign)
    else if form.token !in t.tokens then TokenDenied(TokenInvalid)
    else
      var row := t.tokens[form.token];
      if row.revoked then Replayed(row.family)
      else if Expired(row.expires, now) then TokenDenied(TokenExpired)
      else if form.client != "" && row.client != "" && form.client != row.client then TokenDenied(ClientMismatch)
      else TokenReady(form.token, row)
  }

  // ---------------------------------------------------------------------------
  // Writes, each one transaction

  predicate Live(t: Tables, token: string) {
    token in t.tokens && !t.tokens[token].revoked
  }

  predicate Unused(t: Tables, code: string) {
    code in t.codes && !t.codes[code].used
  }

  function CleanCodes(t: Tables, now: Stamp): Tables {
    t.(codes := map c | c in t.codes && !t.codes[c].used && !Expired(t.codes[c].expires, now) :: t.codes[c])
  }

  function CleanTokens(t: Tables, now: Stamp): Tables {
    t.(tokens := map k | k in t.tokens && !(t.tokens[k].revoked && Expired(t.tokens[k].expires, now)) :: t.tokens[k])
  }

  /** Every row `which` names becomes revoked. */
  function RevokeWhere(t: Tables, which: TokenRow -> bool): Tables {
    t.(tokens := map k | k in t.tokens ::
         if which(t.tokens[k]) then t.tokens[k].(revoked := true) else t.tokens[k])
  }

  function MintCode(t: Tables, code: string, row: CodeRow, now: Stamp): Tables {
    var clean := CleanCodes(t, now);
    clean.(codes := clean.codes[code := row])
  }

  function InsertToken(t: Tables, token: string, row: TokenRow): Tables {
    t.(tokens := t.tokens[token := row])
  }

  /** Burn the code and open a lineage, or change nothing when another request burned it first. */
  function Exchange(t: Tables, code: string, row: CodeRow, token: string, family: string, expires: Stamp): Tables {
    if !Unused(t, code) then t
    else InsertToken(t.(codes := t.codes[code := t.codes[code].(used := true)]),
                     token, TokenRow(family, row.client, row.user, expires, false))
  }

  /** The presented row becomes its own successor. */
  function Overwrite(t: Tables, shown: string, token: string, expires: Stamp): Tables {
    if !Live(t, shown) then t
    else t.(tokens := (t.tokens - {shown})[token := t.tokens[shown].(expires := expires)])
  }

  /** The presented row stays, revoked, and a successor joins its family. */
  function Rotate(t: Tables, shown: string, row: TokenRow, token: string, expires: Stamp, now: Stamp): Tables {
    if !Live(t, shown) then t
    else
      var spent := t.(tokens := t.tokens[shown := t.tokens[shown].(revoked := true)]);
      InsertToken(CleanTokens(spent, now), token, TokenRow(row.family, row.client, row.user, expires, false))
  }

  function BurnFamily(t: Tables, family: string): Tables {
    RevokeWhere(t, (r: TokenRow) => r.family == family)
  }

  function RevokeUser(t: Tables, user: string): Tables {
    RevokeWhere(t, (r: TokenRow) => r.user == user && !r.revoked)
  }

  // ---------------------------------------------------------------------------
  // The statements, as the handlers run them

  class TokenStore {
    var codes: map<string, CodeRow>
    var tokens: map<string, TokenRow>

    constructor ()
      ensures State() == Tables(map[], map[])
    {
      codes, tokens := map[], map[];
    }

    function State(): Tables
      reads this
    {
      Tables(codes, tokens)
    }

    /** `DELETE FROM oauth_state WHERE used = 1 OR expires_at < ?` */
    method CleanupSpentCodes(now: Stamp)
      modifies `codes
      ensures State() == CleanCodes(old(State()), now)
    {
      codes := map c | c in codes && !(codes[c].used || Expired(codes[c].expires, now)) :: codes[c];
    }

    method IssueAuthorizationCode(code: string, client: string, redirect: string, challenge: string, user: string,
                                  expires: Stamp, now: Stamp)
      modifies `codes
      ensures State() == MintCode(old(State()), code, CodeRow(client, redirect, challenge, user, expires, false), now)
      ensures forall c :: c != code && Unused(old(State()), c) && !Expired(old(codes)[c].expires, now) ==>
                c in codes && codes[c] == old(codes)[c]
    {
      CleanupSpentCodes(now);
      codes := codes[code := CodeRow(client, redirect, challenge, user, expires, false)];
    }

    /** `UPDATE oauth_state SET used = 1 WHERE code = ? AND used = 0` */
    method BurnCode(code: string) returns (rowcount: nat)
      modifies `codes
      ensures rowcount == if Unused(old(State()), code) then 1 else 0
      ensures codes == if rowcount == 1 then old(codes)[code := old(codes)[code].(used := true)] else old(codes)
    {
      rowcount := 0;
      if code in codes && !codes[code].used {
        codes := codes[code := codes[code].(used := true)];
        rowcount := 1;
      }
    }

    /** The write half of `_grant_authorization_code`, with a fresh token and a fresh family. */
    method FinishExchange(env: Env, code: string, row: CodeRow, token: string, family: string, expires: Stamp)
      returns (a: Answer)
      modifies this
      ensures State() == Exchange(old(State()), code, row, token, family, expires)
      ensures a == if old(Unused(State(), code)) then Issued(row.user, env.sid(family), token) else Refused(CodeInvalid)
    {
      var burned := BurnCode(code);
      if burned != 1 {
        return Refused(CodeInvalid);
      }
      tokens := tokens[token := TokenRow(family, row.client, row.user, expires, false)];
      a := Issued(row.user, env.sid(family), token);
    }

    /** `UPDATE … SET token_hash = ?, expires_at = ? WHERE token_hash = ? AND revoked = 0` */
    method FinishOverwrite(env: Env, shown: string, row: TokenRow, token: string, expires: Stamp) returns (a: Answer)
      modifies `tokens
      ensures State() == Overwrite(old(State()), shown, token, expires)
      ensures a == if old(Live(State(), shown)) then Issued(row.user, env.sid(row.family), token)
              else Refused(TokenInvalid)
    {
      if shown !in tokens || tokens[shown].revoked {
        return Refused(TokenInvalid);
      }
      var moved := tokens[shown].(expires := expires);
      tokens := (tokens - {shown})[token := moved];
      a := Issued(row.user, env.sid(row.family), token);
    }

    /** `DELETE FROM oauth_refresh_token WHERE revoked = 1 AND expires_at < ?` */
    method CleanupExpiredRevoked(now: Stamp)
      modifies `tokens
      ensures State() == CleanTokens(old(State()), now)
    {
      tokens := map k | k in tokens && !(tokens[k].revoked && Expired(tokens[k].expires, now)) :: tokens[k];
    }

    method FinishRotate(env: Env, shown: string, row: TokenRow, token: string, expires: Stamp, now: Stamp)
      returns (a: Answer)
      modifies `tokens
      ensures State() == Rotate(old(State()), shown, row, token, expires, now)
      ensures a == if old(Live(State(), shown)) then Issued(row.user, env.sid(row.family), token)
              else Refused(TokenInvalid)
    {
      if shown !in tokens || tokens[shown].revoked {
        return Refused(TokenInvalid);
      }
      tokens := tokens[shown := tokens[shown].(revoked := true)];
      CleanupExpiredRevoked(now);
      tokens := tokens[token := TokenRow(row.family, row.client, row.user, expires, false)];
      a := Issued(row.user, env.sid(row.family), token);
    }

    /** `UPDATE oauth_refresh_token SET revoked = 1 WHERE family = ?` */
    method Burn(family: string)
      modifies `tokens
      ensures State() == BurnFamily(old(State()), family)
      ensures forall k :: Live(State(), k) <==> old(Live(State(), k)) && old(tokens)[k].family != family
    {
      tokens := map k | k in tokens ::
        if tokens[k].family == family then tokens[k].(revoked := true) else tokens[k];
    }

    /** Answers how many rows were live. */
    method RevokeRefreshTokensFor(user: string) returns (rowcount: nat)
      modifies `tokens
      ensures State() == RevokeUser(old(State()), user)
      ensures rowcount == |set k | k in old(tokens) && !old(tokens)[k].revoked && old(tokens)[k].user == user|
      ensures forall k :: Live(State(), k) <==> old(Live(State(), k)) && old(tokens)[k].user != user
    {
      var hit := set k | k in tokens && !tokens[k].revoked && tokens[k].user == user;
      tokens := map k | k in tokens :: if k in hit then tokens[k].(revoked := true) else tokens[k];
      rowcount := |hit|;
    }
  }
}
