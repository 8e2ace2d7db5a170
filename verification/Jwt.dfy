/**
 Access tokens (backend/src/auth/jwt.rs) and the request guard that checks them
 (backend/src/middleware/auth.rs). A signature is modelled by the key that made it.
 */
module Jwt {
  import opened Options
  import opened Redis

  datatype Role = User | Admin

  datatype Claims = Claims(sub: UserId, role: Role, iss: string, iat: int, exp: int, jti: nat, sid: Sid, typ: string)

  datatype Jwt = Jwt(claims: Claims, signedWith: string)

  datatype Config = Config(secret: string, issuer: string, accessTtl: int)

  datatype AuthUser = AuthUser(id: UserId, role: Role, sid: Sid)

  const ACCESS_TOKEN_TYPE := "access"
  const LEEWAY := 5

  function Issue(cfg: Config, now: int, user: UserId, role: Role, sid: Sid, jti: nat): Jwt {
    Jwt(Claims(user, role, cfg.issuer, now, now + cfg.accessTtl, jti, sid, ACCESS_TOKEN_TYPE), cfg.secret)
  }

  function Verify(cfg: Config, now: int, token: Jwt): Option<Claims> {
    if token.signedWith != cfg.secret then None
    else if token.claims.iss != cfg.issuer then None
    else if token.claims.exp < now - LEEWAY then None
    else if token.claims.typ != ACCESS_TOKEN_TYPE then None
    else Some(token.claims)
  }

  /** `AuthUser::from_request_parts`: token, then live session of the same subject, then current user row. */
  function FromRequest(cfg: Config, now: int, bearer: Option<Jwt>, db: Db, users: map<UserId, Role>): Option<AuthUser> {
    if bearer.None? then None
    else
      var claims := Verify(cfg, now, bearer.value);
      if claims.None? then None
      else if Owner(db, claims.value.sid) != Some(claims.value.sub) then None
      else if claims.value.sub !in users then None
      else Some(AuthUser(claims.value.sub, users[claims.value.sub], claims.value.sid))
  }

  /** `AdminUser`: the role that decides is the one in the user table, not the one in the token. */
  function FromAdminRequest(cfg: Config, now: int, bearer: Option<Jwt>, db: Db,
                            users: map<UserId, Role>): Option<AuthUser> {
    var auth := FromRequest(cfg, now, bearer, db, users);
    if auth.Some? && auth.value.role == Admin then auth else None
  }

  /** A token is accepted from issue to `accessTtl + 5` seconds later, and only under the same key and issuer. */
  lemma VerifyAcceptsExactly(issuer: Config, verifier: Config, t: int, now: int, user: UserId, role: Role, sid: Sid,
                             jti: nat)
    ensures Verify(verifier, now, Issue(issuer, t, user, role, sid, jti)).Some?
       <==> issuer.secret == verifier.secret && issuer.issuer == verifier.issuer && now <= t + issuer.accessTtl + LEEWAY
    ensures Verify(verifier, now, Issue(issuer, t, user, role, sid, jti)).Some?
       ==> var claims := Verify(verifier, now, Issue(issuer, t, user, role, sid, jti)).value;
           && claims.sub == user && claims.sid == sid && claims.role == role && claims.jti == jti
           && claims.iat == t && claims.exp - claims.iat == issuer.accessTtl
    ensures forall typ: string | typ != ACCESS_TOKEN_TYPE ::
              var claims := Issue(issuer, t, user, role, sid, jti).claims.(typ := typ);
              Verify(verifier, now, Jwt(claims, issuer.secret)).None?
  {
  }

  /** The role written in a token decides nothing: both guards answer from the user's current row. */
  lemma TokenRoleIsIgnored(cfg: Config, now: int, token: Jwt, role: Role, db: Db, users: map<UserId, Role>)
    ensures var other := token.(claims := token.claims.(role := role));
            && FromRequest(cfg, now, Some(other), db, users) == FromRequest(cfg, now, Some(token), db, users)
            && FromAdminRequest(cfg, now, Some(other), db, users) == FromAdminRequest(cfg, now, Some(token), db, users)
    ensures var admin := FromAdminRequest(cfg, now, Some(token), db, users);
            admin.Some? ==>
              && admin.value.id in users && users[admin.value.id] == Admin
              && Owner(db, admin.value.sid) == Some(admin.value.id)
  {
  }

  /** The admin guard passes exactly a verified token of a live session of its subject, who is an admin now. */
  lemma AdminPassesExactly(cfg: Config, now: int, token: Jwt, db: Db, users: map<UserId, Role>)
    ensures FromAdminRequest(cfg, now, Some(token), db, users).Some? <==>
              && Verify(cfg, now, token).Some? && Owner(db, token.claims.sid) == Some(token.claims.sub)
              && token.claims.sub in users && users[token.claims.sub] == Admin
    ensures FromAdminRequest(cfg, now, Some(token), db, users).Some? ==>
              FromAdminRequest(cfg, now, Some(token), db, users).value
              == AuthUser(token.claims.sub, Admin, token.claims.sid)
    ensures FromAdminRequest(cfg, now, None, db, users).None?
  {
  }
}
