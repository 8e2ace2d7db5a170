/** The auth handlers (backend/src/handlers/auth.rs) as clients of the store and its counters, one request at a time. */
module Handlers {
  import opened Options
  import opened Redis
  import opened SessionTable
  import opened Counters
  import Jwt
  import SessionStore
  import CounterStore
  import RateLimit

  datatype LoginOutcome = TooManyRequests | Unauthorized | PasswordOk | LoggedIn(token: Jwt.Jwt)

  /** POST /auth/refresh: rotate, reload the user, issue an access token for the same session. */
  ghost function Refresh(t: Table, users: map<UserId, Jwt.Role>, cfg: Jwt.Config, abs: int, now: int,
                         h: Token, next: Token, jti: nat): (Table, Option<Jwt.Jwt>)
  {
    var (t', r) := Rotate(t, abs, now, h, next);
    if r.None? then (t', None)
    else if r.value.1 !in users then (t', None)
    else (t', Some(Jwt.Issue(cfg, now, r.value.1, users[r.value.1], r.value.0, jti)))
  }

  /** The request guard, seen over the session table. */
  lemma GuardOverTable(db: Db, idle: int, abs: int, used: set<Sid>, cfg: Jwt.Config, bearer: Jwt.Jwt,
                       users: map<UserId, Jwt.Role>)
    requires SessionStore.KeysOk(db, idle, abs, used)
    ensures forall x | x in db.sess :: SessionStore.Complete(db.sess[x].val)
    ensures Jwt.FromRequest(cfg, db.now, Some(bearer), db, users).Some? <==>
              && Jwt.Verify(cfg, db.now, bearer).Some?
              && Owns(SessionStore.Rows(db), bearer.claims.sub, bearer.claims.sid)
              && bearer.claims.sub in users
  {
    SessionStore.KeysComplete(db, idle, abs, used);
    assert bearer.claims.sid in db.sess ==> SessionStore.SessionOk(db, idle, used, bearer.claims.sid);
  }

  /**
   A refreshed access token opens the guard, as the user and session of the refresh token, until its expiry
   and leeway have passed, the session is gone or the user is removed.
   */
  lemma RefreshedTokenWorks(t: Table, users: map<UserId, Jwt.Role>, cfg: Jwt.Config, abs: int, now: int, h: Token,
                            next: Token, jti: nat, sid: Sid, db: Db, idle: int, used: set<Sid>,
                            users': map<UserId, Jwt.Role>)
    requires OneHolder(t) && sid in t && t[sid].token == h
    requires Refresh(t, users, cfg, abs, now, h, next, jti).1.Some?
    requires SessionStore.KeysOk(db, idle, abs, used)
    ensures forall x | x in db.sess :: SessionStore.Complete(db.sess[x].val)
    ensures var token := Refresh(t, users, cfg, abs, now, h, next, jti).1.value;
            Jwt.FromRequest(cfg, db.now, Some(token), db, users') ==
              if && db.now <= now + cfg.accessTtl + Jwt.LEEWAY
                 && Owns(SessionStore.Rows(db), t[sid].user, sid) && t[sid].user in users'
              then Some(Jwt.AuthUser(t[sid].user, users'[t[sid].user], sid)) else None
  {
    HolderIs(t, h, sid);
    GuardOverTable(db, idle, abs, used, cfg, Refresh(t, users, cfg, abs, now, h, next, jti).1.value, users');
  }

  /**
   A refresh succeeds exactly for the current token of a live session not older than `abs` whose user exists. The
   access token is for that user, with the role of the user's row, and for that session, issued now.
   */
  lemma RefreshAnswersExactly(t: Table, users: map<UserId, Jwt.Role>, cfg: Jwt.Config, abs: int, now: int, h: Token,
                              next: Token, jti: nat)
    requires OneHolder(t)
    ensures var (t', token) := Refresh(t, users, cfg, abs, now, h, next, jti);
            && (token.Some? <==>
                  exists sid :: sid in t && t[sid].token == h && now - t[sid].created <= abs && t[sid].user in users)
            && (token.Some? ==>
                  var claims := token.value.claims;
                  && claims.sid in t && t[claims.sid].token == h && claims.sub == t[claims.sid].user
                  && claims.sub in users && claims.role == users[claims.sub] && claims.iat == now
                  && claims.sid in t' && t'[claims.sid].token == next)
            && (token.None? ==> forall sid | sid in t' :: t'[sid].token != h || h == next)
  {
    RotateSucceedsExactly(t, abs, now, h, next);
    RotateEffect(t, abs, now, h, next);
    forall sid | sid in t && t[sid].token == h ensures Holder(t, h) == Some(sid) { HolderIs(t, h, sid); }
  }

  class AuthHandlers {
    const sessions: SessionStore.SessionStore
    const counters: CounterStore.CounterStore
    const jwt: Jwt.Config
    const maxAttempts: int
    const lockout: int
    var users: map<UserId, Jwt.Role>

    ghost predicate Valid()
      reads this, sessions, counters
    {
      && sessions.Valid() && counters.Valid() && sessions.db.now == counters.now
      && lockout >= 1
    }

    constructor (sessions: SessionStore.SessionStore, counters: CounterStore.CounterStore, jwt: Jwt.Config,
                 maxAttempts: int, lockout: int, users: map<UserId, Jwt.Role>)
      requires sessions.Valid() && counters.Valid() && sessions.db.now == counters.now && lockout >= 1
      ensures Valid() && this.sessions == sessions && this.counters == counters && this.jwt == jwt
      ensures this.maxAttempts == maxAttempts && this.lockout == lockout && this.users == users
    {
      this.sessions, this.counters, this.jwt := sessions, counters, jwt;
      this.maxAttempts, this.lockout, this.users := maxAttempts, lockout, users;
    }

    /**
     POST /auth/login. A request over the rate limit, for an unknown account, for a locked account or with a
     wrong password creates no session; a refused attempt on a locked account leaves the lock as it is.
     */
    method Login(key: string, account: Option<UserId>, passwordOk: bool, sid: Sid, h: Token, jti: nat,
                 ua: Option<string>, ip: Option<string>) returns (outcome: LoginOutcome)
      requires Valid() && (account.Some? ==> account.value in users)
      requires sid !in sessions.used && Holder(sessions.Table(), h).None?
      modifies sessions, counters
      ensures Valid() && users == old(users) && !outcome.PasswordOk?
      ensures var locked := account.Some? && Value(old(counters.Lock(account.value))) >= maxAttempts;
              && (outcome.TooManyRequests? <==> !old(counters.Allows(key)) || locked)
              && (outcome.LoggedIn? <==> old(counters.Allows(key)) && account.Some? && !locked && passwordOk)
      ensures outcome.LoggedIn? ==>
                && sessions.Table() == Create(old(sessions.Table()), old(sessions.db.now), sid, account.value,
                                              if ua.Some? then ua.value else "", if ip.Some? then ip.value else "", h)
                && counters.Lock(account.value) == Absent
                && outcome.token == Jwt.Issue(jwt, old(sessions.db.now), account.value, users[account.value], sid, jti)
      ensures !outcome.LoggedIn? ==> sessions.Table() == old(sessions.Table())
      ensures counters.now == old(counters.now)
      ensures counters.hits == old(counters.hits)[key := old(counters.Hits(key)) + [counters.now]]
      ensures counters.answers == old(counters.answers)[key := old(counters.Answers(key)) + [old(counters.Allows(key))]]
      ensures forall u | account != Some(u) :: counters.Lock(u) == old(counters.Lock(u))
      ensures account.Some? && outcome.Unauthorized? ==>
                counters.Lock(account.value)
                == Counting(Value(old(counters.Lock(account.value))) + 1, old(counters.now) + lockout)
      ensures account.Some? && outcome.TooManyRequests? ==>
              counters.Lock(account.value) == old(counters.Lock(account.value))
    {
      var ok := EnforceAuthRateLimit(key);
      if ok {
        outcome := LoginAllowed(account, passwordOk, sid, h, jti, ua, ip);
      } else {
        outcome := TooManyRequests;
      }
    }

    /** Counts the request against its key, and against nothing else. */
    method EnforceAuthRateLimit(key: string) returns (ok: bool)
      requires Valid()
      modifies counters`limits, counters`hits, counters`answers
      ensures Valid() && (ok <==> old(counters.Allows(key)))
      ensures ok <==> RateLimit.Accepted(old(counters.Hits(key)) + [counters.now], counters.authWindow,
                                         counters.authMax, |old(counters.Hits(key))|)
      ensures counters.answers == old(counters.answers)[key := old(counters.Answers(key)) + [ok]]
      ensures counters.hits == old(counters.hits)[key := old(counters.Hits(key)) + [counters.now]]
      ensures forall u :: counters.Lock(u) == old(counters.Lock(u))
    {
      ok := counters.AuthRateLimitOk(key);
    }

    /** `login` past the rate limit. */
    method LoginAllowed(account: Option<UserId>, passwordOk: bool, sid: Sid, h: Token, jti: nat,
                        ua: Option<string>, ip: Option<string>) returns (outcome: LoginOutcome)
      requires Valid() && (account.Some? ==> account.value in users)
      requires sid !in sessions.used && Holder(sessions.Table(), h).None?
      modifies sessions, counters`locks, counters`failures
      ensures Valid() && users == old(users) && !outcome.PasswordOk?
      ensures var locked := account.Some? && Value(old(counters.Lock(account.value))) >= maxAttempts;
              && (outcome.TooManyRequests? <==> locked)
              && (outcome.LoggedIn? <==> account.Some? && !locked && passwordOk)
      ensures outcome.LoggedIn? ==>
                && sessions.Table() == Create(old(sessions.Table()), old(sessions.db.now), sid, account.value,
                                              if ua.Some? then ua.value else "", if ip.Some? then ip.value else "", h)
                && counters.Lock(account.value) == Absent
                && outcome.token == Jwt.Issue(jwt, old(sessions.db.now), account.value, users[account.value], sid, jti)
      ensures !outcome.LoggedIn? ==> sessions.Table() == old(sessions.Table())
      ensures account.Some? && outcome.Unauthorized? ==>
                counters.Lock(account.value)
                == Counting(Value(old(counters.Lock(account.value))) + 1, counters.now + lockout)
      ensures account.Some? && outcome.TooManyRequests? ==>
                counters.Lock(account.value) == old(counters.Lock(account.value))
      ensures forall u | account != Some(u) :: counters.Lock(u) == old(counters.Lock(u))
    {
      if account.None? {
        return Unauthorized;
      }
      outcome := TryPassword(account.value, passwordOk);
      if outcome.PasswordOk? {
        var token := StartSession(account.value, sid, h, jti, ua, ip);
        outcome := LoggedIn(token);
      }
    }

    /** The lock check, the password check, and the record or reset that follows. */
    method TryPassword(user: UserId, passwordOk: bool) returns (outcome: LoginOutcome)
      requires Valid()
      modifies counters`locks, counters`failures
      ensures Valid()
      ensures outcome == if Value(old(counters.Lock(user))) >= maxAttempts then TooManyRequests
                         else if passwordOk then PasswordOk else Unauthorized
      ensures counters.Lock(user) == match outcome
                case TooManyRequests => old(counters.Lock(user))
                case Unauthorized => Counting(Value(old(counters.Lock(user))) + 1, counters.now + lockout)
                case _ => Absent
      ensures forall u | u != user :: counters.Lock(u) == old(counters.Lock(u))
    {
      var locked := counters.IsLocked(user, maxAttempts);
      if locked {
        return TooManyRequests;
      }
      if !passwordOk {
        var _ := counters.RecordLoginFailure(user, lockout);
        return Unauthorized;
      }
      counters.ClearLoginFailures(user);
      return PasswordOk;
    }

    /** `start_session`, shared by login and register. */
    method StartSession(user: UserId, sid: Sid, h: Token, jti: nat, ua: Option<string>, ip: Option<string>)
      returns (token: Jwt.Jwt)
      requires Valid() && user in users
      requires sid !in sessions.used && Holder(sessions.Table(), h).None?
      modifies sessions
      ensures Valid() && sessions.db.now == old(sessions.db.now)
      ensures sessions.Table() == Create(old(sessions.Table()), old(sessions.db.now), sid, user,
                                         if ua.Some? then ua.value else "", if ip.Some? then ip.value else "", h)
      ensures token == Jwt.Issue(jwt, old(sessions.db.now), user, users[user], sid, jti)
    {
      sessions.Create(sid, user, ua, ip, h);
      token := Jwt.Issue(jwt, sessions.db.now, user, users[user], sid, jti);
    }

    method RefreshSession(h: Token, next: Token, jti: nat) returns (token: Option<Jwt.Jwt>)
      requires Valid() && Holder(sessions.Table(), next).None?
      modifies sessions
      ensures Valid() && sessions.db.now == old(sessions.db.now) && users == old(users)
      ensures (sessions.Table(), token)
           == Refresh(old(sessions.Table()), users, jwt, sessions.abs, old(sessions.db.now), h, next, jti)
    {
      var rotated := sessions.Rotate(h, next);
      if rotated.None? {
        return None;
      }
      var (sid, user) := rotated.value;
      if user !in users {
        return None;
      }
      token := Some(Jwt.Issue(jwt, sessions.db.now, user, users[user], sid, jti));
    }

    /** POST /auth/logout, with or without the cookie. */
    method LogoutSession(h: Option<Token>)
      requires Valid()
      modifies sessions
      ensures Valid() && sessions.db.now == old(sessions.db.now)
      ensures sessions.Table() == if h.Some? then Logout(old(sessions.Table()), h.value) else old(sessions.Table())
      ensures forall sid :: sid in sessions.Table() <==>
                sid in old(sessions.Table()) && Some(old(sessions.Table())[sid].token) != h
      ensures forall sid | sid in sessions.Table() :: sessions.Table()[sid] == old(sessions.Table())[sid]
    {
      if h.Some? {
        sessions.Logout(h.value);
      }
    }
  }
}
