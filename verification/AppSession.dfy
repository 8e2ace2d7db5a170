/** The front end's session object (frontend/lib/auth.ts, frontend/lib/session.ts), field by field. */
module AppSession {
  import opened Options
  import opened Redis
  import opened Bff
  import Jwt
  import Handlers
  import SessionTable

  class AppSession {
    var accessToken: Option<Jwt.Jwt>
    var accessTokenExpiresAt: Option<int>
    var refreshToken: Option<Token>
    var user: Option<UserId>
    /** What the browser will send back: the fields as last sealed by `save`, or nothing after `destroy`. */
    ghost var cookie: Option<Sealed>

    predicate IsAuthenticated()
      reads this
    {
      accessToken.Some? && accessTokenExpiresAt.Some? && refreshToken.Some? && user.Some?
    }

    ghost function Data(): Option<Sealed>
      reads this
    {
      if IsAuthenticated()
      then Some(Sealed(accessToken.value, accessTokenExpiresAt.value, refreshToken.value, user.value))
      else None
    }

    /** `getSession`: unseals the cookie, or starts empty. */
    constructor (sealedData: Option<Sealed>)
      ensures Data() == sealedData && cookie == sealedData
    {
      if sealedData.Some? {
        var d := sealedData.value;
        accessToken, accessTokenExpiresAt := Some(d.access), Some(d.expiresAt);
        refreshToken, user := Some(d.refresh), Some(d.user);
      } else {
        accessToken, accessTokenExpiresAt, refreshToken, user := None, None, None, None;
      }
      cookie := sealedData;
    }

    method EstablishSession(token: Jwt.Jwt, expiresIn: int, refresh: Token, ms: nat)
      modifies this
      ensures Data() == Some(Sealed(token, ms + expiresIn * 1000, refresh, token.claims.sub)) && cookie == Data()
    {
      accessToken := Some(token);
      accessTokenExpiresAt := Some(ms + expiresIn * 1000);
      refreshToken := Some(refresh);
      user := Some(token.claims.sub);
      cookie := Data();
    }

    method Destroy()
      modifies this
      ensures Data() == None && cookie == None
    {
      accessToken, accessTokenExpiresAt, refreshToken, user := None, None, None, None;
      cookie := None;
    }

    /** Fields, cookie and backend move together, as the function Context says. */
    method GetAuthContext(backend: Handlers.AuthHandlers, ms: nat, next: Token, jti: nat)
      returns (token: Option<Jwt.Jwt>)
      requires backend.Valid() && backend.sessions.db.now == Seconds(ms) && cookie == Data()
      requires SessionTable.Holder(backend.sessions.Table(), next).None?
      modifies this, backend.sessions
      ensures backend.Valid() && cookie == Data() && backend.users == old(backend.users)
      ensures (backend.sessions.Table(), Data(), token)
           == Context(Config(backend.sessions.idle, backend.sessions.abs, backend.jwt), old(backend.sessions.Table()),
                      old(backend.users), ms, old(Data()), next, jti)
    {
      if !IsAuthenticated() {
        return None;
      }
      if accessTokenExpiresAt.value - REFRESH_SKEW_MS > ms {
        return accessToken;
      }
      token := backend.RefreshSession(refreshToken.value, next, jti);
      if token.Some? {
        EstablishSession(token.value, backend.jwt.accessTtl, next, ms);
      } else {
        Destroy();
      }
    }
  }
}
