/**
 How long a session and the access tokens drawn from it can live, however often the
 session is refreshed.
 */
module SessionLifetime {
  import opened Options
  import opened Redis
  import opened Protocol
  import opened ProtocolInvariant
  import opened ProtocolLog
  import opened SessionSafety
  import Jwt

  /** Every write that follows a clock reading follows it within `delay` seconds. */
  ghost predicate Prompt(log: seq<Event>, delay: int) {
    forall i | 0 <= i < |log| && (Mints(log[i]) || log[i].Issued?) :: log[i].at - log[i].stamp <= delay
  }

  /**
   A session with an owner carries its creation time and expires by created + abs + delay + idle.
   With writes at the instant of their clock reading, delay is 0. Without any promptness, it still
   expires by the creation write + idle, or before created + abs + 2 * idle.
   */
  lemma SessionLifetimeBound(c: Config, s: State, delay: int, sid: Sid)
    requires Sane(c) && Reachable(c, s) && Owner(s.db, sid).Some?
    ensures s.db.sess[sid].val.created.Some? && s.db.sess[sid].expiry.Some?
    ensures sid in s.hist.lives && s.hist.lives[sid].Born?
    ensures s.hist.lives[sid].created == s.db.sess[sid].val.created.value
    ensures Prompt(s.log, delay) ==>
            s.db.sess[sid].expiry.value <= s.db.sess[sid].val.created.value + c.abs + delay + c.idle
    ensures || s.db.sess[sid].expiry.value <= s.hist.lives[sid].since + c.idle
            || s.db.sess[sid].expiry.value < s.db.sess[sid].val.created.value + c.abs + 2 * c.idle
  {
    ReachableGood(c, s);
    assert SessAt(c, s.db, s.hist, sid);
    assert TipOk(s, sid);
    var i :| 0 <= i < |s.log| && s.log[i] == s.hist.last[sid];
  }

  /**
   No request is accepted for a session past created + abs + delay + access_ttl + 5 seconds of leeway
   (time of the token check), nor past the lifetime of the session itself (time of the owner check).
   The accepted subject is the user the session was created for.
   */
  lemma AcceptedLifetimeBound(c: Config, s: State, delay: int, i: nat, user: UserId, stamp: int, at: int)
    requires Sane(c) && Reachable(c, s)
    requires i < |s.log| && s.log[i].Accepted?
    requires WasCreated(s.log, s.log[i].claims.sid, user, stamp, at)
    ensures s.log[i].claims.sub == user
    ensures Prompt(s.log, delay) ==> s.log[i].verified <= stamp + c.abs + delay + c.jwt.accessTtl + Jwt.LEEWAY
    ensures s.log[i].at < at + c.idle || s.log[i].at < stamp + c.abs + 2 * c.idle
  {
    ReachableGood(c, s);
    CreatedIsBorn(c, s, s.log[i].claims.sid, user, stamp, at);
    assert EventOk(c, s.db, s.hist, s.log[i]);
    var j :| 0 <= j < |s.log| && s.log[j].Issued? && s.log[j].claims == s.log[i].claims;
    assert EventOk(c, s.db, s.hist, s.log[j]);
  }

  /** The first token of a chain comes from a creation. */
  lemma {:induction false} ChainHasCreation(c: Config, s: State, sid: Sid, n: nat)
    requires ChainsOk(s) && n <= |s.log| && Chain(s.log[..n], sid) != []
    ensures exists user, stamp, at :: WasCreated(s.log, sid, user, stamp, at)
  {
    var e := s.log[n - 1];
    assert s.log[..n][..n - 1] == s.log[..n - 1];
    if Mints(e) && e.sid == sid && e.Created? {
      assert WasCreated(s.log, sid, e.user, e.stamp, e.at);
    } else {
      assert Follows(s.log[..n - 1], e);
      ChainHasCreation(c, s, sid, n - 1);
    }
  }

  lemma BornHasChain(c: Config, s: State, sid: Sid)
    requires ChainsOk(s) && IsBorn(s.hist, sid)
    ensures exists user, stamp, at :: WasCreated(s.log, sid, user, stamp, at)
  {
    assert TipOk(s, sid);
    assert s.log[..|s.log|] == s.log;
    ChainHasCreation(c, s, sid, |s.log|);
  }

  /** A request is accepted only for a session that was created, so the bound above covers every one of them. */
  lemma AcceptedWasCreated(c: Config, s: State, i: nat)
    requires Sane(c) && Reachable(c, s) && i < |s.log| && s.log[i].Accepted?
    ensures exists user, stamp, at :: WasCreated(s.log, s.log[i].claims.sid, user, stamp, at)
  {
    ReachableGood(c, s);
    assert EventOk(c, s.db, s.hist, s.log[i]);
    BornHasChain(c, s, s.log[i].claims.sid);
  }
}
