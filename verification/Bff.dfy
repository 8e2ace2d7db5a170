/**
 The browser-facing session (frontend/lib/auth.ts): a sealed cookie per browser
 that holds the access token, its deadline and the rotating refresh token, kept
 in step with the backend's sessions. The front end counts milliseconds, the
 backend whole seconds of the same clock. The backend is reachable, no answer is
 lost, and requests are served one at a time.
 */
module Bff {
  import opened Options
  import opened Redis
  import opened SessionTable
  import Jwt
  import Handlers

  const REFRESH_SKEW_MS := 30_000

  /** What a non-empty cookie seals. */
  datatype Sealed = Sealed(access: Jwt.Jwt, expiresAt: int, refresh: Token, user: UserId)

  datatype Config = Config(idle: int, abs: int, jwt: Jwt.Config)

  function Seconds(ms: nat): nat {
    ms / 1000
  }

  /** `establishSession` */
  function Establish(cfg: Config, ms: nat, token: Jwt.Jwt, refresh: Token): Sealed {
    Sealed(token, ms + cfg.jwt.accessTtl * 1000, refresh, token.claims.sub)
  }

  /** Backend, clock and cookies; `drawn` are the ids and tokens generated so far. */
  datatype World = World(
    table: Table,
    users: map<UserId, Jwt.Role>,
    ms: nat,
    jar: map<nat, Sealed>,
    drawnSids: set<Sid>,
    drawnTokens: set<Token>)

  datatype Action =
    | Tick(ms: nat)
    | LogIn(browser: nat, user: UserId, sid: Sid, token: Token, jti: nat, ua: string, ip: string)
    | GetAuth(browser: nat, next: Token, jti: nat)
    | LogOut(browser: nat)
    | RevokeOne(user: UserId, sid: Sid)
    | RevokeRest(user: UserId, keep: Sid)
    | RemoveUser(user: UserId)

  predicate Enabled(w: World, a: Action) {
    match a
    case Tick(ms) => ms > w.ms
    case LogIn(_, user, sid, token, _, _, _) => user in w.users && sid !in w.drawnSids && token !in w.drawnTokens
    case GetAuth(_, next, _) => next !in w.drawnTokens
    case _ => true
  }

  /**
   `getAuthContext` on one cookie: the sealed token if it has a margin left, else a transparent refresh, else no
   session.
   */
  ghost function Context(cfg: Config, table: Table, users: map<UserId, Jwt.Role>, ms: nat, cookie: Option<Sealed>,
                         next: Token, jti: nat): (Table, Option<Sealed>, Option<Jwt.Jwt>)
  {
    if cookie.None? then (table, None, None)
    else if cookie.value.expiresAt - REFRESH_SKEW_MS > ms then (table, cookie, Some(cookie.value.access))
    else
      var (table', token) := Handlers.Refresh(table, users, cfg.jwt, cfg.abs, Seconds(ms), cookie.value.refresh,
                                             next, jti);
      if token.None? then (table', None, None) else (table', Some(Establish(cfg, ms, token.value, next)), token)
  }

  ghost function GetAuthContext(cfg: Config, w: World, b: nat, next: Token, jti: nat): (World, Option<Jwt.Jwt>) {
    if b !in w.jar then (w, None)
    else
      var (table, cookie, token) := Context(cfg, w.table, w.users, w.ms, Some(w.jar[b]), next, jti);
      (w.(table := table, jar := if cookie.Some? then w.jar[b := cookie.value] else w.jar - {b},
          drawnTokens := w.drawnTokens + {next}), token)
  }

  ghost function Do(cfg: Config, w: World, a: Action): World
    requires Enabled(w, a)
  {
    match a
    case Tick(ms) => w.(ms := ms, table := Expire(w.table, cfg.idle, Seconds(ms)))
    case LogIn(b, user, sid, token, jti, ua, ip) =>
      var access := Jwt.Issue(cfg.jwt, Seconds(w.ms), user, w.users[user], sid, jti);
      w.(table := Create(w.table, Seconds(w.ms), sid, user, ua, ip, token),
         jar := w.jar[b := Establish(cfg, w.ms, access, token)],
         drawnSids := w.drawnSids + {sid}, drawnTokens := w.drawnTokens + {token})
    case GetAuth(b, next, jti) => GetAuthContext(cfg, w, b, next, jti).0
    case LogOut(b) =>
      if b in w.jar then w.(table := Logout(w.table, w.jar[b].refresh), jar := w.jar - {b}) else w
    case RevokeOne(user, sid) => w.(table := Revoke(w.table, user, sid))
    case RevokeRest(user, keep) => w.(table := RevokeOthers(w.table, user, keep))
    case RemoveUser(user) => w.(users := w.users - {user})
  }

  ghost predicate Run(cfg: Config, w: World, acts: seq<Action>)
    decreases |acts|
  {
    acts == [] || (Enabled(w, acts[0]) && Run(cfg, Do(cfg, w, acts[0]), acts[1..]))
  }

  ghost function After(cfg: Config, w: World, acts: seq<Action>): World
    requires Run(cfg, w, acts)
    decreases |acts|
  {
    if acts == [] then w else After(cfg, Do(cfg, w, acts[0]), acts[1..])
  }

  /**
   The cookie holds the current refresh token of its session, or that session is dead and nobody else has the token.
   */
  ghost predicate InStep(w: World, b: nat)
    requires b in w.jar
  {
    var s := w.jar[b];
    var sid := s.access.claims.sid;
    && sid in w.drawnSids && s.refresh in w.drawnTokens
    && (sid in w.table ==> w.table[sid].token == s.refresh && w.table[sid].user == s.user)
    && (sid !in w.table ==> forall x | x in w.table :: w.table[x].token != s.refresh)
  }

  /** The access token is one the backend accepts until its deadline, to the second. */
  ghost predicate Deadline(cfg: Config, w: World, b: nat)
    requires b in w.jar
  {
    var s := w.jar[b];
    && s.access.signedWith == cfg.jwt.secret && s.access.claims.iss == cfg.jwt.issuer
    && s.access.claims.typ == Jwt.ACCESS_TOKEN_TYPE && s.access.claims.sub == s.user
    && s.access.claims.exp * 1000 <= s.expiresAt < s.access.claims.exp * 1000 + 1000
  }

  ghost predicate TableOk(cfg: Config, w: World) {
    && OneHolder(w.table)
    && (forall sid | sid in w.table :: sid in w.drawnSids && w.table[sid].token in w.drawnTokens)
  }

  /** No two cookies share a session. */
  ghost predicate OwnSession(w: World) {
    forall a, b | a in w.jar && b in w.jar && a != b :: w.jar[a].access.claims.sid != w.jar[b].access.claims.sid
  }

  ghost predicate Inv(cfg: Config, w: World) {
    && TableOk(cfg, w) && OwnSession(w)
    && (forall b | b in w.jar :: InStep(w, b) && Deadline(cfg, w, b))
  }

  /** The session a refresh token in a cookie leads the backend to. */
  lemma HolderOfCookie(cfg: Config, w: World, b: nat)
    requires Inv(cfg, w) && b in w.jar
    ensures var sid := w.jar[b].access.claims.sid;
            Holder(w.table, w.jar[b].refresh) == if sid in w.table then Some(sid) else None
  {
    var sid := w.jar[b].access.claims.sid;
    assert InStep(w, b);
    if sid in w.table {
      HolderIs(w.table, w.jar[b].refresh, sid);
    }
  }

  /** Removing sessions puts no cookie out of step. */
  lemma StillInStep(w: World, w': World, b: nat)
    requires b in w.jar && InStep(w, b) && b in w'.jar && w'.jar[b] == w.jar[b]
    requires w.drawnSids <= w'.drawnSids && w.drawnTokens <= w'.drawnTokens
    requires forall sid | sid in w'.table :: sid in w.table && w'.table[sid] == w.table[sid]
    requires OneHolder(w.table)
    ensures InStep(w', b)
  {
  }

  lemma KeepsRemoval(cfg: Config, w: World, w': World)
    requires Inv(cfg, w)
    requires w'.drawnSids == w.drawnSids && w'.drawnTokens == w.drawnTokens
    requires forall sid | sid in w'.table :: sid in w.table && w'.table[sid] == w.table[sid]
    requires forall b | b in w'.jar :: b in w.jar && w'.jar[b] == w.jar[b]
    ensures Inv(cfg, w')
  {
    forall b | b in w'.jar ensures InStep(w', b) && Deadline(cfg, w', b) {
      assert Deadline(cfg, w, b);
      StillInStep(w, w', b);
    }
  }

  lemma FloorSecond(ms: nat, ttl: int)
    ensures (Seconds(ms) + ttl) * 1000 <= ms + ttl * 1000 < (Seconds(ms) + ttl) * 1000 + 1000
  {
  }

  lemma KeepsLogIn(cfg: Config, w: World, a: Action)
    requires Inv(cfg, w) && a.LogIn? && Enabled(w, a)
    ensures Inv(cfg, Do(cfg, w, a))
  {
    var w' := Do(cfg, w, a);
    FloorSecond(w.ms, cfg.jwt.accessTtl);
    forall b | b in w'.jar ensures InStep(w', b) && Deadline(cfg, w', b) {
      if b != a.browser {
        assert InStep(w, b) && Deadline(cfg, w, b);
      }
    }
    assert OwnSession(w') by {
      forall b | b in w.jar ensures w.jar[b].access.claims.sid != a.sid { assert InStep(w, b); }
    }
  }

  /** A refresh on behalf of browser `b` moves that cookie with its session and touches no other. */
  lemma KeepsRefresh(cfg: Config, w: World, b: nat, next: Token, jti: nat)
    requires Inv(cfg, w) && next !in w.drawnTokens && b in w.jar && w.jar[b].expiresAt - REFRESH_SKEW_MS <= w.ms
    ensures Inv(cfg, GetAuthContext(cfg, w, b, next, jti).0)
  {
    var (w', token) := GetAuthContext(cfg, w, b, next, jti);
    var sid := w.jar[b].access.claims.sid;
    HolderOfCookie(cfg, w, b);
    FloorSecond(w.ms, cfg.jwt.accessTtl);
    assert InStep(w, b);
    forall o | o in w'.jar ensures InStep(w', o) && Deadline(cfg, w', o) {
      if o != b {
        assert InStep(w, o) && Deadline(cfg, w, o);
      }
    }
  }

  lemma Keeps(cfg: Config, w: World, a: Action)
    requires Inv(cfg, w) && Enabled(w, a)
    ensures Inv(cfg, Do(cfg, w, a))
  {
    match a
    case LogIn(_, _, _, _, _, _, _) => KeepsLogIn(cfg, w, a);
    case GetAuth(b, next, jti) =>
      if b in w.jar && w.jar[b].expiresAt - REFRESH_SKEW_MS <= w.ms {
        KeepsRefresh(cfg, w, b, next, jti);
      }
    case _ => KeepsRemoval(cfg, w, Do(cfg, w, a));
  }

  /** Over every run, each cookie holds the current refresh token of its session, or its session is dead. */
  lemma {:induction false} CookiesStayInStep(cfg: Config, w: World, acts: seq<Action>)
    requires Inv(cfg, w) && Run(cfg, w, acts)
    ensures Inv(cfg, After(cfg, w, acts))
    decreases |acts|
  {
    if acts != [] {
      Keeps(cfg, w, acts[0]);
      CookiesStayInStep(cfg, Do(cfg, w, acts[0]), acts[1..]);
    }
  }

  /**
   On an authenticated browser, `getAuthContext` returns null exactly when the deadline is near and the
   backend refuses: the session is dead, older than `abs`, or its user is gone.
   */
  lemma NullOnlyWhenRefused(cfg: Config, w: World, b: nat, next: Token, jti: nat)
    requires Inv(cfg, w) && b in w.jar
    ensures var sid := w.jar[b].access.claims.sid;
            GetAuthContext(cfg, w, b, next, jti).1.None? <==>
              && w.jar[b].expiresAt - REFRESH_SKEW_MS <= w.ms
              && (sid !in w.table || Seconds(w.ms) - w.table[sid].created > cfg.abs || w.jar[b].user !in w.users)
    ensures GetAuthContext(cfg, w, b, next, jti).1.None? <==> b !in GetAuthContext(cfg, w, b, next, jti).0.jar
  {
    HolderOfCookie(cfg, w, b);
    assert InStep(w, b);
  }

  /**
   A token that `getAuthContext` returns was issued just now or has more than 30 s before its sealed
   deadline, hence more than 29 s of validity left; the backend accepts it at this instant, for the user and
   session of the cookie.
   */
  lemma ReturnedTokenIsFresh(cfg: Config, w: World, b: nat, next: Token, jti: nat)
    requires Inv(cfg, w) && cfg.jwt.accessTtl >= 0 && GetAuthContext(cfg, w, b, next, jti).1.Some?
    ensures var (w', token) := GetAuthContext(cfg, w, b, next, jti);
            && b in w.jar && b in w'.jar && token == Some(w'.jar[b].access)
            && token.value.claims.sid == w.jar[b].access.claims.sid && token.value.claims.sub == w.jar[b].user
            && (token.value.claims.iat == Seconds(w.ms) || token.value.claims.exp * 1000 - w.ms > 29_000)
            && Jwt.Verify(cfg.jwt, Seconds(w.ms), token.value).Some?
  {
    HolderOfCookie(cfg, w, b);
    assert InStep(w, b) && Deadline(cfg, w, b);
    FloorSecond(w.ms, 0);
  }

  /**
   The sealed deadline counts from a millisecond, the token's from its second: of a token returned without a
   refresh more than 30 s are left exactly when the deadline, cut to the second, is more than 30 s away.
   */
  lemma MarginHoldsExactly(cfg: Config, w: World, b: nat, next: Token, jti: nat)
    requires Inv(cfg, w) && b in w.jar && w.jar[b].expiresAt - REFRESH_SKEW_MS > w.ms
    ensures GetAuthContext(cfg, w, b, next, jti).1 == Some(w.jar[b].access)
    ensures var w' := GetAuthContext(cfg, w, b, next, jti).0; w'.table == w.table && w'.jar == w.jar
    ensures w.jar[b].access.claims.exp * 1000 - w.ms > 30_000
       <==> w.jar[b].expiresAt - w.jar[b].expiresAt % 1000 - REFRESH_SKEW_MS > w.ms
  {
    assert InStep(w, b) && Deadline(cfg, w, b);
    CutToSecond(w.jar[b].access.claims.exp, w.jar[b].expiresAt);
  }

  lemma CutToSecond(seconds: int, ms: int)
    requires seconds * 1000 <= ms < seconds * 1000 + 1000
    ensures ms - ms % 1000 == seconds * 1000
  {
    assert ms == (ms - seconds * 1000) + seconds * 1000;
  }

  /** Logging in opens a session of the user and gives the browser its cookie; the first request has its token. */
  lemma LogInOpensSession(cfg: Config, w: World, a: Action, next: Token, jti: nat)
    requires a.LogIn? && Enabled(w, a)
    ensures var w' := Do(cfg, w, a);
            && a.sid in w'.table && w'.table[a.sid].user == a.user && w'.table[a.sid].token == a.token
            && w'.table[a.sid].created == w'.table[a.sid].last == w.ms / 1000
            && (forall x | x in w.table && x != a.sid :: x in w'.table && w'.table[x] == w.table[x])
            && a.browser in w'.jar && w'.jar[a.browser].refresh == a.token && w'.jar[a.browser].user == a.user
            && w'.jar[a.browser].access.claims.sid == a.sid
            && (cfg.jwt.accessTtl > 30 ==>
                  GetAuthContext(cfg, w', a.browser, next, jti).1 == Some(w'.jar[a.browser].access))
  {
  }

  /** Logging out ends the session of the cookie and the cookie, and nothing else. */
  lemma LogOutEnds(cfg: Config, w: World, b: nat)
    requires Inv(cfg, w) && b in w.jar
    ensures var w' := Do(cfg, w, LogOut(b));
            && w'.jar == w.jar - {b}
            && w'.table == w.table - {w.jar[b].access.claims.sid}
  {
    HolderOfCookie(cfg, w, b);
  }

  /** Revoking one session ends it if it is the user's own; nobody ever loses a session to another user. */
  lemma RevokeOneEffect(cfg: Config, w: World, user: UserId, sid: Sid)
    ensures var w' := Do(cfg, w, RevokeOne(user, sid));
            && (forall x :: x in w'.table <==> x in w.table && !(x == sid && w.table[x].user == user))
            && (forall x | x in w'.table :: w'.table[x] == w.table[x])
            && w'.jar == w.jar
  {
    RevokeEffect(w.table, user, sid);
  }

  /** Revoking the rest ends every session of the user but `keep`, and no session of anybody else. */
  lemma RevokeRestEffect(cfg: Config, w: World, user: UserId, keep: Sid)
    ensures var w' := Do(cfg, w, RevokeRest(user, keep));
            && (forall x :: x in w'.table <==> x in w.table && (w.table[x].user != user || x == keep))
            && (forall x | x in w'.table :: w'.table[x] == w.table[x])
            && w'.jar == w.jar
  {
    RevokeOthersEffect(w.table, user, keep);
  }

  /** The world before any login. */
  ghost predicate Fresh(w: World) {
    w.table == map[] && w.jar == map[]
  }

  lemma FreshIsInStep(cfg: Config, w: World)
    requires Fresh(w)
    ensures Inv(cfg, w)
  {
  }

  /**
   The margin on the token itself can fall below 30 s: the sealed deadline counts from a millisecond, the token
   from its second.
   */
  lemma MarginCanBeBelowThirtySeconds(secret: string, issuer: string)
    returns (cfg: Config, start: World, acts: seq<Action>)
    ensures Fresh(start) && Run(cfg, start, acts)
    ensures var w := After(cfg, start, acts);
            var token := GetAuthContext(cfg, w, 0, Token(1), 0).1;
            token.Some? && token.value.claims.iat < Seconds(w.ms) && token.value.claims.exp * 1000 - w.ms < 30_000
  {
    cfg := Config(1000, 1000, Jwt.Config(secret, issuer, 60));
    start := World(map[], map[UserId(0) := Jwt.User], 999, map[], {}, {});
    var a, b := LogIn(0, UserId(0), Sid(0), Token(0), 0, "", ""), Tick(30_998);
    acts := [a, b];
    assert acts[1..] == [b] && acts[1..][1..] == [];
    var w1 := Do(cfg, start, a);
    var w := Do(cfg, w1, b);
    assert [b][0] == b && [b][1..] == [] && After(cfg, w, []) == w;
    assert Run(cfg, w1, [b]) && After(cfg, w1, [b]) == w;
    assert After(cfg, start, acts) == w;
    assert w.jar[0].expiresAt == 60_999 && w.jar[0].access.claims.exp == 60;
  }
}
