/** The per-user index under every interleaving. */
module SessionIndex {
  import opened Options
  import opened Redis
  import opened Protocol
  import opened ProtocolInvariant
  import opened SessionSafety
  import opened UserIndex

  lemma ListedAfterCommit(c: Config, s: State, a: Action)
    requires Sane(c) && c.idle <= c.abs && Inv(c, s) && Enabled(c, s, a) && AllListed(s.db)
    requires a.CreateCommit? || a.RotateCommit?
    ensures AllListed(Do(c, s, a).db)
  {
    var p := s.calls[a.tid];
    assert CallOk(c, s.db, s.hist, a.tid, p);
    assert IndexBounded(s.db, c.abs) by {
      forall u | u in s.db.usess ensures s.db.usess[u].expiry.Some? && s.db.usess[u].expiry.value <= s.db.now + c.abs {
        assert IndexAt(c, s.db, s.hist, u);
      }
    }
    if a.CreateCommit? {
      ListedAfterCreate(s.db, c.idle, c.abs, p.sid, p.user, p.stamp, a.ua, a.ip, p.token);
    } else {
      assert p.sid in s.db.sess ==> SessAt(c, s.db, s.hist, p.sid);
      ListedAfterRotate(s.db, c.idle, c.abs, p.sid, p.stage.user, p.stage.stamp, p.next);
    }
  }

  lemma KeepsListed(c: Config, s: State, a: Action)
    requires Sane(c) && c.idle <= c.abs && Inv(c, s) && Enabled(c, s, a) && AllListed(s.db)
    ensures AllListed(Do(c, s, a).db)
  {
    match a
    case Tick(t) => ListedAfterTick(s.db, t);
    case CreateCommit(_, _, _) => ListedAfterCommit(c, s, a);
    case RotateCommit(_) => ListedAfterCommit(c, s, a);
    case DeleteCommit(tid) =>
      var p := s.calls[tid];
      ListedAfterDelete(s.db, p.sid, p.user, p.seen.rth);
    case ListSrem(tid) =>
      assert CallOk(c, s.db, s.hist, tid, s.calls[tid]);
      ListedAfterRemoval(s.db, s.calls[tid].user, s.calls[tid].sid);
    case _ =>
      OthersLeaveSessions(c, s, a);
      SameListed(s.db, Do(c, s, a).db);
  }

  lemma OthersLeaveSessions(c: Config, s: State, a: Action)
    requires Enabled(c, s, a)
    requires !a.Tick? && !a.CreateCommit? && !a.RotateCommit? && !a.DeleteCommit? && !a.ListSrem?
    ensures Do(c, s, a).db.sess == s.db.sess && Do(c, s, a).db.usess == s.db.usess
  {
  }

  lemma SameListed(db: Db, db': Db)
    requires AllListed(db) && db'.sess == db.sess && db'.usess == db.usess
    ensures AllListed(db')
  {
    forall sid | sid in db'.sess && db'.sess[sid].val.user.Some? ensures Listed(db', sid) { assert Listed(db, sid); }
  }

  lemma {:induction false} RunListed(c: Config, s: State, acts: seq<Action>)
    requires Sane(c) && c.idle <= c.abs && Inv(c, s) && Run(c, s, acts) && AllListed(s.db)
    ensures AllListed(After(c, s, acts).db)
    decreases |acts|
  {
    if acts != [] {
      Keeps(c, s, acts[0]);
      KeepsListed(c, s, acts[0]);
      RunListed(c, Do(c, s, acts[0]), acts[1..]);
    }
  }

  /** With an idle lifetime longer than the absolute one, an index can expire under a live session. */
  lemma IndexExpiresFirst(c: Config) returns (s: State)
    requires Sane(c) && c.abs < c.idle
    ensures Reachable(c, s) && !AllListed(s.db)
  {
    s := OneCreate(c);
    s := Reaches(c, s, Tick(c.abs));
    assert Sid(0) in s.db.sess && s.db.sess[Sid(0)].val.user == Some(UserId(0));
    assert !Listed(s.db, Sid(0));
  }

  /** Every live session is in its owner's index in every reachable state, exactly when idle <= abs. */
  lemma IndexAgreementExactly(c: Config)
    requires Sane(c)
    ensures (forall s | Reachable(c, s) :: AllListed(s.db)) <==> c.idle <= c.abs
  {
    if c.idle <= c.abs {
      forall s | Reachable(c, s) ensures AllListed(s.db) {
        var now: int, acts: seq<Action> :| Run(c, Start(now), acts) && After(c, Start(now), acts) == s;
        RunListed(c, Start(now), acts);
      }
    } else {
      var s := IndexExpiresFirst(c);
    }
  }

  /** An index never lists a live session of somebody else, whatever the lifetimes. */
  lemma IndexHoldsOwnSessions(c: Config, s: State)
    requires Sane(c) && Reachable(c, s)
    ensures OwnIndexOnly(s.db)
  {
    ReachableInv(c, s);
    forall u, sid | u in s.db.usess && sid in s.db.usess[u].val && Owner(s.db, sid).Some?
      ensures Owner(s.db, sid) == Some(u)
    {
      assert IndexAt(c, s.db, s.hist, u) && SessAt(c, s.db, s.hist, sid);
    }
  }
}
