/** Login, Refresh and Logout of user-service over the refresh-token collection. */
module Auth {
  import opened Common
  import opened Calendar
  import opened Tokens

  /** The clock readings one call makes, in the order it makes them. */
  datatype Clock = Clock(parse: Instant, check: Instant, sign: Instant, store: Instant)

  /** Whether each storage call succeeds, should the call be made. */
  datatype Storage = Storage(findOk: bool, revokeAllOk: bool, userOk: bool, revokeOk: bool, createOk: bool)

  /** Looking an email and password up: the account they belong to, no such pair, or a storage error. */
  datatype Credential = Account(userId: string) | NoSuchPair | LookupFails

  datatype Outcome =
    | Pair(access: Bearer, refresh: Bearer)
    | InvalidCredentials
    | InvalidToken
    | StorageError
    | Done

  /** The collection and the next unused UUID. */
  datatype Core = Core(col: Collection, next: nat)

  // ---------- What each call does ----------

  function IssuedRecord(n: nat, userId: string, cfg: Config, store: Instant): RefreshToken {
    RefreshToken(n + 1, userId, JtiHash(n), WholeMilli(store + cfg.refreshTtl), false, store)
  }

  function IssuedPair(n: nat, userId: string, cfg: Config, sign: Instant): Outcome {
    Pair(Generate(cfg.accessSecret, userId, AccessKind, 0, sign, cfg.accessTtl),
         Generate(cfg.refreshSecret, userId, RefreshKind, n, sign, cfg.refreshTtl))
  }

  function AfterIssue(c: Core, userId: string, cfg: Config, clock: Clock, ok: bool): (Core, Outcome) {
    if ok && JtiHash(c.next) !in c.col
    then (Core(c.col[JtiHash(c.next) := IssuedRecord(c.next, userId, cfg, clock.store)], c.next + 2),
          IssuedPair(c.next, userId, cfg, clock.sign))
    else (Core(c.col, c.next + 2), StorageError)
  }

  function AfterLogin(c: Core, cred: Credential, cfg: Config, clock: Clock, st: Storage): (Core, Outcome) {
    match cred
    case LookupFails => (c, StorageError)
    case NoSuchPair => (c, InvalidCredentials)
    case Account(u) => AfterIssue(c, u, cfg, clock, st.createOk)
  }

  /** The record a presented token leads to, when it parses and the lookup works. */
  function Presented(c: Core, token: Bearer, cfg: Config, clock: Clock): Option<RefreshToken> {
    var claims := Parse(cfg.refreshSecret, token, RefreshKind, clock.parse);
    if claims.Some? && JtiHash(claims.value.jti) in c.col then Some(c.col[JtiHash(claims.value.jti)]) else None
  }

  function AfterRefresh(c: Core, users: set<string>, token: Bearer, cfg: Config, clock: Clock, st: Storage)
    : (Core, Outcome)
  {
    var claims := Parse(cfg.refreshSecret, token, RefreshKind, clock.parse);
    if claims.None? then (c, InvalidToken)
    else if !st.findOk then (c, StorageError)
    else
      match Presented(c, token, cfg, clock)
      case None => (c, InvalidToken)
      case Some(rt) =>
        if rt.revoked then
          if st.revokeAllOk then (c.(col := RevokedForUser(c.col, rt.userId)), InvalidToken) else (c, StorageError)
        else if clock.check > rt.expiresAt then (c, InvalidToken)
        else if !st.userOk then (c, StorageError)
        else if claims.value.userId !in users then (c, InvalidToken)
        else if !st.revokeOk then (c, StorageError)
        else AfterIssue(c.(col := RevokedById(c.col, rt.id)), claims.value.userId, cfg, clock, st.createOk)
  }

  function AfterLogout(c: Core, token: Bearer, cfg: Config, clock: Clock, st: Storage): (Core, Outcome) {
    var claims := Parse(cfg.refreshSecret, token, RefreshKind, clock.parse);
    if claims.None? then (c, Done)
    else if !st.findOk then (c, StorageError)
    else
      match Presented(c, token, cfg, clock)
      case None => (c, Done)
      case Some(rt) =>
        if rt.revoked then (c, Done)
        else if st.revokeOk then (c.(col := RevokedById(c.col, rt.id)), Done)
        else (c, StorageError)
  }

  // ---------- The service ----------

  class AuthService {
    const cfg: Config
    const tokens: RefreshTokenRepository
    var users: set<string>
    var next: nat

    constructor (cfg: Config, tokens: RefreshTokenRepository, users: set<string>)
      ensures this.cfg == cfg && this.tokens == tokens && this.users == users && next == 1
    {
      this.cfg, this.tokens, this.users, next := cfg, tokens, users, 1;
    }

    function State(): Core
      reads this, tokens
    {
      Core(tokens.col, next)
    }

    method IssueTokenPair(userId: string, clock: Clock, st: Storage) returns (o: Outcome)
      modifies this`next, tokens
      ensures (State(), o) == AfterIssue(old(State()), userId, cfg, clock, st.createOk)
    {
      var jti := next;
      var access := Generate(cfg.accessSecret, userId, AccessKind, 0, clock.sign, cfg.accessTtl);
      var refresh := Generate(cfg.refreshSecret, userId, RefreshKind, jti, clock.sign, cfg.refreshTtl);
      var id := next + 1;
      next := next + 2;
      var rt := RefreshToken(id, userId, JtiHash(jti), WholeMilli(clock.store + cfg.refreshTtl), false, clock.store);
      var ok := tokens.Create(rt, st.createOk);
      if !ok {
        return StorageError;
      }
      o := Pair(access, refresh);
    }

    method Login(cred: Credential, clock: Clock, st: Storage) returns (o: Outcome)
      modifies this`next, tokens
      ensures (State(), o) == AfterLogin(old(State()), cred, cfg, clock, st)
    {
      match cred
      case LookupFails => o := StorageError;
      case NoSuchPair => o := InvalidCredentials;
      case Account(u) => o := IssueTokenPair(u, clock, st);
    }

    method Refresh(token: Bearer, clock: Clock, st: Storage) returns (o: Outcome)
      modifies this`next, tokens
      ensures (State(), o) == AfterRefresh(old(State()), users, token, cfg, clock, st)
    {
      var claims := Parse(cfg.refreshSecret, token, RefreshKind, clock.parse);
      if claims.None? {
        return InvalidToken;
      }
      var found := tokens.FindByJtiHash(JtiHash(claims.value.jti), st.findOk);
      if found.Err? {
        return if found.error.Unknown? then InvalidToken else StorageError;
      }
      var rt := found.value;
      if rt.revoked {
        var contained := tokens.RevokeAllForUser(rt.userId, st.revokeAllOk);
        return if contained then InvalidToken else StorageError;
      }
      if clock.check > rt.expiresAt {
        return InvalidToken;
      }
      if !st.userOk {
        return StorageError;
      }
      if claims.value.userId !in users {
        return InvalidToken;
      }
      var revoked := tokens.Revoke(rt.id, st.revokeOk);
      if !revoked.Revoked? {
        return StorageError;
      }
      o := IssueTokenPair(claims.value.userId, clock, st);
    }

    method Logout(token: Bearer, clock: Clock, st: Storage) returns (o: Outcome)
      modifies tokens
      ensures (State(), o) == AfterLogout(old(State()), token, cfg, clock, st)
    {
      var claims := Parse(cfg.refreshSecret, token, RefreshKind, clock.parse);
      if claims.None? {
        return Done;
      }
      var found := tokens.FindByJtiHash(JtiHash(claims.value.jti), st.findOk);
      if found.Err? {
        return if found.error.Unknown? then Done else StorageError;
      }
      if found.value.revoked {
        return Done;
      }
      var r := tokens.Revoke(found.value.id, st.revokeOk);
      o := if r.Revoked? then Done else StorageError;
    }
  }
}
