/** The other side of revocation: requests of live sessions do get through. */
module SessionAccess {
  import opened Options
  import opened Redis
  import opened Protocol
  import opened SessionSafety
  import Jwt

  /** The owner check of a request accepts exactly a session that its subject owns at that instant. */
  lemma CheckDecidesExactly(c: Config, s: State, tid: nat)
    requires Enabled(c, s, AuthOwner(tid))
    ensures var p := s.calls[tid];
            Do(c, s, AuthOwner(tid)).log ==
              if Owner(s.db, p.claims.sid) == Some(p.claims.sub)
              then s.log + [Accepted(p.claims, p.verified, s.db.now)] else s.log
    ensures Do(c, s, AuthOwner(tid)).db == s.db
  {
  }

  /** In every reachable state, a request with an issued token in time is accepted if its subject owns the session. */
  lemma LiveTokenIsAccepted(c: Config, s: State, tid: nat, bearer: Jwt.Jwt) returns (t: State)
    requires Reachable(c, s) && tid !in s.calls && bearer.claims in s.hist.issued
    requires Jwt.Verify(c.jwt, s.db.now, bearer).Some? && Owner(s.db, bearer.claims.sid) == Some(bearer.claims.sub)
    ensures Reachable(c, t) && t.db == s.db && t.log == s.log + [Accepted(bearer.claims, s.db.now, s.db.now)]
  {
    var u := Reaches(c, s, AuthVerify(tid, bearer));
    assert u.db == s.db && u.log == s.log && u.calls[tid] == Auth(bearer.claims, s.db.now);
    CheckDecidesExactly(c, u, tid);
    t := Reaches(c, u, AuthOwner(tid));
  }

  /** Under every configuration whose access tokens live at all, a login leads to an accepted request. */
  lemma AcceptanceIsReachable(c: Config)
    requires Sane(c) && c.jwt.accessTtl >= 0
    ensures exists s, claims: Jwt.Claims :: Reachable(c, s) && Accepted(claims, 0, 0) in s.log && claims.sid == Sid(0)
  {
    var s := OneCreate(c);
    var bearer := Jwt.Issue(c.jwt, 0, UserId(0), Jwt.User, Sid(0), 0);
    var u := Reaches(c, s, IssueJwt(0, Jwt.User, 0));
    assert u.db == s.db && bearer.claims in u.hist.issued && 0 !in u.calls;
    var t := LiveTokenIsAccepted(c, u, 0, bearer);
    assert t.log[|t.log| - 1] == Accepted(bearer.claims, 0, 0);
  }
}
