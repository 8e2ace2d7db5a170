/**
 A race the store allows: a rotation that read the session before its revocation
 writes the hash again afterwards, without an owner. This is why the request guard
 must read `user_id`, and not merely ask whether the key exists.
 */
module SessionGhosts {
  import opened Options
  import opened Redis
  import opened Protocol
  import opened ProtocolInvariant
  import opened SessionSafety
  import opened SessionLosses

  /** A rotation of session 0 by call 1 that has passed its clock check, the session being alive. */
  lemma RotationAboutToWrite(c: Config) returns (s: State)
    requires Sane(c)
    ensures Reachable(c, s) && s.db.now == 0 && s.calls.Keys == {0, 1}
    ensures s.calls[1] == Rotate(Token(0), Token(1), Sid(0), Checked(UserId(0), 0, 0))
    ensures Owner(s.db, Sid(0)) == Some(UserId(0))
  {
    s := OneCreate(c);
    s := Reaches(c, s, RotateTake(1, Token(0), Token(1)));
    assert s.calls[1] == Rotate(Token(0), Token(1), Sid(0), Taken) && 0 in s.calls;
    s := ReadsAndChecks(c, s);
  }

  lemma ReadsAndChecks(c: Config, s: State) returns (t: State)
    requires Sane(c) && Reachable(c, s) && s.db.now == 0 && s.calls.Keys == {0, 1}
    requires s.calls[1] == Rotate(Token(0), Token(1), Sid(0), Taken)
    requires Owner(s.db, Sid(0)) == Some(UserId(0)) && s.db.sess[Sid(0)].val.created == Some(0)
    ensures Reachable(c, t) && t.db == s.db && t.calls.Keys == {0, 1}
    ensures t.calls[1] == Rotate(Token(0), Token(1), Sid(0), Checked(UserId(0), 0, 0))
  {
    t := Reaches(c, s, RotateRead(1));
    t := Reaches(c, t, RotateClock(1));
  }

  /** In some reachable state the hash of a revoked session exists again, with a token, and without an owner. */
  lemma HashWithoutOwner(c: Config)
    requires Sane(c)
    ensures exists s :: Reachable(c, s) && Sid(0) in s.db.sess && Owner(s.db, Sid(0)).None?
                        && Token(1) in s.db.rt && s.db.rt[Token(1)].val == Sid(0)
  {
    var s := RotationAboutToWrite(c);
    s := Reaches(c, s, RevokeOwner(2, UserId(0), Sid(0)));
    s := Reaches(c, s, DeleteRead(2));
    DeleteMultiEffect(s.db, Sid(0), UserId(0), s.calls[2].seen.rth);
    s := Reaches(c, s, DeleteCommit(2));
    s := WritesAgain(c, s);
  }

  lemma WritesAgain(c: Config, s: State) returns (t: State)
    requires Reachable(c, s) && Sid(0) !in s.db.sess && 1 in s.calls
    requires s.calls[1] == Rotate(Token(0), Token(1), Sid(0), Checked(UserId(0), 0, 0))
    ensures Reachable(c, t) && Sid(0) in t.db.sess && Owner(t.db, Sid(0)).None?
    ensures Token(1) in t.db.rt && t.db.rt[Token(1)].val == Sid(0)
  {
    RotateMultiEffect(s.db, c.idle, c.abs, Sid(0), UserId(0), 0, Token(1));
    t := Reaches(c, s, RotateCommit(1));
  }

  ghost predicate Ghost(db: Db, sid: Sid) {
    sid in db.sess && Owner(db, sid).None?
  }

  lemma OthersMakeNoGhost(c: Config, s: State, a: Action, sid: Sid)
    requires Enabled(c, s, a) && !a.RotateCommit? && !Ghost(s.db, sid)
    ensures !Ghost(Do(c, s, a).db, sid)
  {
    if !a.CreateCommit? {
      OnlyCommitsWrite(c, s, a);
    }
  }

  /** A hash without an owner appears exactly when a rotation writes to a hash that is gone. */
  lemma GhostAppearsExactly(c: Config, s: State, a: Action, sid: Sid)
    requires Sane(c) && Reachable(c, s) && Enabled(c, s, a) && !Ghost(s.db, sid)
    ensures Ghost(Do(c, s, a).db, sid) <==> a.RotateCommit? && s.calls[a.tid].sid == sid && sid !in s.db.sess
  {
    if a.RotateCommit? {
      var p := s.calls[a.tid];
      RotateMultiEffect(s.db, c.idle, c.abs, p.sid, p.stage.user, p.stage.stamp, p.next);
    } else {
      OthersMakeNoGhost(c, s, a, sid);
    }
  }
}
