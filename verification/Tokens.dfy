/** JWTs as jwtx issues and parses them, and the refresh_tokens collection. */
module Tokens {
  import opened Common
  import opened Calendar

  datatype TokenKind = AccessKind | RefreshKind

  /** jti is the UUID of a refresh token and 0 for an access token; exp is a whole second. */
  datatype Claims = Claims(userId: string, kind: TokenKind, jti: nat, exp: Instant)

  /** A presented token string: signed by us under some secret, or anything else. */
  datatype Bearer = Garbage | Signed(secret: string, claims: Claims)

  /** SHA-256 of the JTI, taken to be injective. */
  datatype JtiHash = JtiHash(jti: nat)

  datatype RefreshToken = RefreshToken(
    id: nat,
    userId: string,
    jtiHash: JtiHash,
    expiresAt: Instant,
    revoked: bool,
    createdAt: Instant
  )

  datatype Config = Config(accessSecret: string, refreshSecret: string, accessTtl: int, refreshTtl: int)

  /** NewNumericDate keeps whole seconds. */
  function WholeSecond(t: Instant): Instant {
    t - t % 1_000_000_000
  }

  /** MongoDB dates keep whole milliseconds. */
  function WholeMilli(t: Instant): Instant {
    t - t % 1_000_000
  }

  function Generate(secret: string, userId: string, kind: TokenKind, jti: nat, now: Instant, ttl: int): Bearer {
    Signed(secret, Claims(userId, kind, jti, WholeSecond(now + ttl)))
  }

  /** Signature, then expiry (section 4.1.4 of RFC 7519: valid only before exp), then type. */
  function Parse(secret: string, token: Bearer, expected: TokenKind, now: Instant): Option<Claims> {
    if token.Garbage? || token.secret != secret then None
    else if now >= token.claims.exp then None
    else if token.claims.kind != expected then None
    else Some(token.claims)
  }

  type Collection = map<JtiHash, RefreshToken>

  function RevokedById(col: Collection, id: nat): (r: Collection)
    ensures r.Keys == col.Keys
  {
    map h | h in col :: if col[h].id == id then col[h].(revoked := true) else col[h]
  }

  function RevokedForUser(col: Collection, userId: string): (r: Collection)
    ensures r.Keys == col.Keys
  {
    map h | h in col :: if col[h].userId == userId then col[h].(revoked := true) else col[h]
  }

  datatype FindError = Unknown | FindFailed

  datatype RevokeResult = Revoked | NotFound | Failed

  class RefreshTokenRepository {
    /** Keyed by the unique index on jti_hash. */
    var col: Collection

    constructor ()
      ensures col == map[]
    {
      col := map[];
    }

    /** A failed insert, by the driver or by the unique index, stores nothing. */
    method Create(rt: RefreshToken, insertOk: bool) returns (ok: bool)
      modifies this
      ensures ok <==> insertOk && rt.jtiHash !in old(col)
      ensures col == if ok then old(col)[rt.jtiHash := rt] else old(col)
    {
      ok := insertOk && rt.jtiHash !in col;
      if ok {
        col := col[rt.jtiHash := rt];
      }
    }

    method FindByJtiHash(h: JtiHash, findOk: bool) returns (r: Result<RefreshToken, FindError>)
      ensures r == if !findOk then Err(FindFailed) else if h in col then Ok(col[h]) else Err(Unknown)
    {
      r := if !findOk then Err(FindFailed) else if h in col then Ok(col[h]) else Err(Unknown);
    }

    method Revoke(id: nat, updateOk: bool) returns (r: RevokeResult)
      modifies this
      ensures r.Failed? <==> !updateOk
      ensures r.NotFound? <==> updateOk && forall h :: h in old(col) ==> old(col)[h].id != id
      ensures col == if updateOk then RevokedById(old(col), id) else old(col)
    {
      if !updateOk {
        return Failed;
      }
      var matched := set h | h in col && col[h].id == id;
      assert forall h :: h in matched <==> h in col && col[h].id == id;
      col := RevokedById(col, id);
      r := if matched == {} then NotFound else Revoked;
    }

    method RevokeAllForUser(userId: string, updateOk: bool) returns (ok: bool)
      modifies this
      ensures ok == updateOk
      ensures col == if updateOk then RevokedForUser(old(col), userId) else old(col)
    {
      if updateOk {
        col := RevokedForUser(col, userId);
      }
      ok := updateOk;
    }
  }
}
