/** The index `usess:{user}` against the sessions it is meant to list, command by command. */
module UserIndex {
  import opened Options
  import opened Redis

  /** The live session `sid` is in its owner's set, and that set does not expire before it. */
  ghost predicate Listed(db: Db, sid: Sid)
    requires sid in db.sess && db.sess[sid].val.user.Some?
  {
    var u := db.sess[sid].val.user.value;
    && u in db.usess && sid in db.usess[u].val
    && db.sess[sid].expiry.Some? && db.usess[u].expiry.Some?
    && db.sess[sid].expiry.value <= db.usess[u].expiry.value
  }

  ghost predicate AllListed(db: Db) {
    forall sid | sid in db.sess && db.sess[sid].val.user.Some? :: Listed(db, sid)
  }

  /** A session found in an index belongs to the user of that index. */
  ghost predicate OwnIndexOnly(db: Db) {
    forall u, sid | u in db.usess && sid in db.usess[u].val && Owner(db, sid).Some? :: Owner(db, sid) == Some(u)
  }

  /** No index expires later than `abs` from now. */
  ghost predicate IndexBounded(db: Db, abs: int) {
    forall u | u in db.usess :: db.usess[u].expiry.Some? && db.usess[u].expiry.value <= db.now + abs
  }

  lemma ListedAfterTick(db: Db, t: int)
    requires AllListed(db) && t >= db.now
    ensures AllListed(Advance(db, t))
  {
    forall sid | sid in Advance(db, t).sess && db.sess[sid].val.user.Some? ensures Listed(Advance(db, t), sid) {
      assert Listed(db, sid);
    }
  }

  /** Removing an id from an index is harmless once its session is gone. */
  lemma ListedAfterRemoval(db: Db, u: UserId, sid: Sid)
    requires AllListed(db) && Owner(db, sid).None?
    ensures AllListed(SRem(db, u, sid))
  {
    forall x | x in SRem(db, u, sid).sess && db.sess[x].val.user.Some? ensures Listed(SRem(db, u, sid), x) {
      assert Listed(db, x) && x != sid;
      assert u in db.usess && x in db.usess[u].val ==> x in db.usess[u].val - {sid};
    }
  }

  lemma ListedAfterDelete(db: Db, sid: Sid, u: UserId, rth: Option<Token>)
    requires AllListed(db)
    ensures AllListed(DeleteMulti(db, sid, u, rth))
  {
    var d := DelSess(if rth.Some? then DelToken(db, rth.value) else db, sid);
    forall x | x in d.sess && d.sess[x].val.user.Some? ensures Listed(d, x) { assert Listed(db, x); }
    ListedAfterRemoval(d, u, sid);
  }

  lemma ListedAfterCreate(db: Db, idle: int, abs: int, sid: Sid, user: UserId, stamp: int, ua: string, ip: string,
                          h: Token)
    requires AllListed(db) && IndexBounded(db, abs) && idle <= abs && sid !in db.sess
    ensures AllListed(CreateMulti(db, idle, abs, sid, user, stamp, ua, ip, h))
  {
    var d := CreateMulti(db, idle, abs, sid, user, stamp, ua, ip, h);
    CreateMultiEffect(db, idle, abs, sid, user, stamp, ua, ip, h);
    forall x | x in d.sess && d.sess[x].val.user.Some? ensures Listed(d, x) { assert x != sid ==> Listed(db, x); }
  }

  lemma ListedAfterRotate(db: Db, idle: int, abs: int, sid: Sid, user: UserId, stamp: int, h: Token)
    requires AllListed(db) && IndexBounded(db, abs) && idle <= abs
    requires Owner(db, sid).Some? ==> Owner(db, sid).value == user
    ensures AllListed(RotateMulti(db, idle, abs, sid, user, stamp, h))
  {
    var d := RotateMulti(db, idle, abs, sid, user, stamp, h);
    RotateMultiEffect(db, idle, abs, sid, user, stamp, h);
    forall x | x in d.sess && d.sess[x].val.user.Some? ensures Listed(d, x) { assert Listed(db, x); }
  }
}
