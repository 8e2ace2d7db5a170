/**
 The two models of the store agree: a call of the concurrent machine that nobody
 interrupts does to the session table what the abstract operation says, as the
 method of class `SessionStore` does.
 */
module SessionSolo {
  import opened Options
  import opened Redis
  import opened SessionTable
  import opened Protocol
  import opened SessionSafety
  import SessionStore

  /** Call `tid` ran from `s` to `t`, alone and at one instant. */
  ghost predicate Alone(c: Config, s: State, t: State, tid: nat) {
    exists acts :: Run(c, s, acts) && After(c, s, acts) == t && OnlyBy(acts, tid)
  }

  ghost predicate OnlyBy(acts: seq<Action>, tid: nat) {
    forall i | 0 <= i < |acts| :: !acts[i].Tick? && acts[i].tid == tid
  }

  lemma Reserves(c: Config, s: State, tid: nat, sid: Sid, user: UserId, h: Token)
    requires Enabled(c, s, CreateStart(tid, sid, user, h))
    ensures var u := Do(c, s, CreateStart(tid, sid, user, h));
            u.db == s.db && u.calls == s.calls[tid := Creating(sid, user, h, s.db.now)]
  {
  }

  lemma Begin(c: Config, s: State, tid: nat)
    ensures Alone(c, s, s, tid)
  {
    assert Run(c, s, []) && After(c, s, []) == s && OnlyBy([], tid);
  }

  lemma Then(c: Config, s: State, t: State, a: Action, tid: nat) returns (t': State)
    requires Alone(c, s, t, tid) && Enabled(c, t, a) && !a.Tick? && a.tid == tid
    ensures t' == Do(c, t, a) && Alone(c, s, t', tid)
  {
    var acts :| Run(c, s, acts) && After(c, s, acts) == t && OnlyBy(acts, tid);
    RunOneMore(c, s, acts, a);
    t' := Do(c, t, a);
    assert OnlyBy(acts + [a], tid);
  }

  /** The keys of `s` stand for a table. */
  ghost predicate Ready(c: Config, db: Db, used: set<Sid>) {
    && SessionStore.KeysOk(db, c.idle, c.abs, used)
    && forall sid | sid in db.sess :: SessionStore.Complete(db.sess[sid].val)
  }

  // --- The steps ---

  lemma CreateSteps(c: Config, s: State, tid: nat, sid: Sid, user: UserId, ua: string, ip: string, h: Token)
    returns (t: State)
    requires Enabled(c, s, CreateStart(tid, sid, user, h))
    ensures Alone(c, s, t, tid) && t.db == CreateMulti(s.db, c.idle, c.abs, sid, user, s.db.now, ua, ip, h)
    ensures t.calls == s.calls[tid := Issuing(user, sid, s.db.now)]
  {
    Begin(c, s, tid);
    var u := Then(c, s, s, CreateStart(tid, sid, user, h), tid);
    Reserves(c, s, tid, sid, user, h);
    t := CreateWrites(c, s, u, tid, Creating(sid, user, h, s.db.now), ua, ip);
  }

  lemma CreateWrites(c: Config, s: State, u: State, tid: nat, p: Pc, ua: string, ip: string) returns (t: State)
    requires Alone(c, s, u, tid) && tid in u.calls && u.calls[tid] == p && p.Creating?
    ensures Alone(c, s, t, tid) && t.db == CreateMulti(u.db, c.idle, c.abs, p.sid, p.user, p.stamp, ua, ip, p.token)
    ensures t.calls == u.calls[tid := Issuing(p.user, p.sid, p.stamp)]
  {
    t := Then(c, s, u, CreateCommit(tid, ua, ip), tid);
  }

  /** The GETDEL and the HGETALL of `rotate`, on a session that is there. */
  lemma RotateReads(c: Config, s: State, tid: nat, h: Token, next: Token, f: Fields) returns (t: State)
    requires Enabled(c, s, RotateTake(tid, h, next)) && f == HGetAll(s.db, s.db.rt[h].val) && f.user.Some?
    requires f.created.Some?
    ensures Alone(c, s, t, tid) && t.db == DelToken(s.db, h)
    ensures t.calls == s.calls[tid := Rotate(h, next, s.db.rt[h].val, Read(f.user.value, f.created.value))]
  {
    Begin(c, s, tid);
    var u := Then(c, s, s, RotateTake(tid, h, next), tid);
    t := Then(c, s, u, RotateRead(tid), tid);
  }

  /** `rotate` past its reads: the clock, then the MULTI block. */
  lemma RotateWrites(c: Config, s: State, u: State, tid: nat, p: Pc) returns (t: State)
    requires Alone(c, s, u, tid) && tid in u.calls && u.calls[tid] == p && p.Rotate? && p.stage.Read?
    requires u.db.now - p.stage.created <= c.abs
    ensures Alone(c, s, t, tid) && t.db == RotateMulti(u.db, c.idle, c.abs, p.sid, p.stage.user, u.db.now, p.next)
    ensures t.calls == u.calls[tid := Issuing(p.stage.user, p.sid, u.db.now)]
  {
    var v := Then(c, s, u, RotateClock(tid), tid);
    t := Then(c, s, v, RotateCommit(tid), tid);
  }

  /** `rotate` past its reads and past the absolute age: the clock, then a whole `delete`. */
  lemma RotateGivesUp(c: Config, s: State, u: State, tid: nat, p: Pc) returns (t: State)
    requires Alone(c, s, u, tid) && tid in u.calls && u.calls[tid] == p && p.Rotate? && p.stage.Read?
    requires u.db.now - p.stage.created > c.abs
    ensures Alone(c, s, t, tid) && t.db == DeleteMulti(u.db, p.sid, p.stage.user, HGetAll(u.db, p.sid).rth)
    ensures t.calls == u.calls - {tid}
  {
    var q := Delete(p.sid, p.stage.user, NotRead, ForRotate(p.used));
    var v := Then(c, s, u, RotateClock(tid), tid);
    assert v.calls == u.calls[tid := q] && v.db == u.db;
    t := DeleteSteps(c, s, v, tid, q);
    assert t.calls == u.calls - {tid};
  }

  lemma RotateInTime(c: Config, s: State, tid: nat, h: Token, next: Token, f: Fields) returns (t: State)
    requires Enabled(c, s, RotateTake(tid, h, next)) && f == HGetAll(s.db, s.db.rt[h].val) && f.user.Some?
    requires f.created.Some?
    requires s.db.now - f.created.value <= c.abs
    ensures Alone(c, s, t, tid)
    ensures t.db == RotateMulti(DelToken(s.db, h), c.idle, c.abs, s.db.rt[h].val, f.user.value, s.db.now, next)
    ensures t.calls == s.calls[tid := Issuing(f.user.value, s.db.rt[h].val, s.db.now)]
  {
    var u := RotateReads(c, s, tid, h, next, f);
    t := RotateWrites(c, s, u, tid, u.calls[tid]);
  }

  lemma RotateTooOld(c: Config, s: State, tid: nat, h: Token, next: Token, f: Fields) returns (t: State)
    requires Enabled(c, s, RotateTake(tid, h, next)) && f == HGetAll(s.db, s.db.rt[h].val) && f.user.Some?
    requires f.created.Some?
    requires s.db.now - f.created.value > c.abs
    ensures Alone(c, s, t, tid) && t.calls == s.calls
    ensures t.db == DeleteMulti(DelToken(s.db, h), s.db.rt[h].val, f.user.value, f.rth)
  {
    var u := RotateReads(c, s, tid, h, next, f);
    t := RotateGivesUp(c, s, u, tid, u.calls[tid]);
    PutAndRemove(s.calls, tid, u.calls[tid]);
  }

  lemma PutAndRemove<K, V>(m: map<K, V>, k: K, v: V)
    requires k !in m
    ensures m[k := v] - {k} == m
  {
  }

  /** The GETDEL and the HGET of `logout`, on a session that is there. */
  lemma LogoutReads(c: Config, s: State, tid: nat, h: Token, owner: UserId) returns (t: State)
    requires Enabled(c, s, LogoutTake(tid, h)) && Owner(s.db, s.db.rt[h].val) == Some(owner)
    ensures Alone(c, s, t, tid) && t.db == DelToken(s.db, h)
    ensures t.calls == s.calls[tid := Delete(s.db.rt[h].val, owner, NotRead, ForLogout(h))]
  {
    Begin(c, s, tid);
    var u := Then(c, s, s, LogoutTake(tid, h), tid);
    t := Then(c, s, u, LogoutOwner(tid), tid);
  }

  lemma DeleteSteps(c: Config, s: State, u: State, tid: nat, p: Pc) returns (t: State)
    requires Alone(c, s, u, tid) && tid in u.calls && u.calls[tid] == p && p.Delete? && p.seen.NotRead?
    requires !p.job.ForOthers?
    ensures Alone(c, s, t, tid) && t.calls == u.calls - {tid}
    ensures t.db == DeleteMulti(u.db, p.sid, p.user, HGetAll(u.db, p.sid).rth)
  {
    var v := Then(c, s, u, DeleteRead(tid), tid);
    t := Then(c, s, v, DeleteCommit(tid), tid);
    assert t.calls == u.calls - {tid};
  }

  // --- What they do to the table ---

  lemma DeleteEnds(c: Config, before: Db, db: Db, used: set<Sid>, sid: Sid, user: UserId)
    requires Ready(c, before, used) && SessionStore.KeysBut(db, c.idle, c.abs, used, sid) && db.sess == before.sess
    ensures var d := DeleteMulti(db, sid, user, HGetAll(db, sid).rth);
            Ready(c, d, used) && SessionStore.Rows(d) == SessionStore.Rows(before) - {sid}
  {
    SessionStore.KeysAfterDelete(db, c.idle, c.abs, used, sid, user);
    DeleteMultiEffect(db, sid, user, HGetAll(db, sid).rth);
    SessionStore.RowsWithout(before, DeleteMulti(db, sid, user, HGetAll(db, sid).rth), sid);
  }

  lemma TakenThenDeleted(c: Config, db: Db, used: set<Sid>, h: Token, user: UserId)
    requires Ready(c, db, used) && h in db.rt
    ensures var sid := db.rt[h].val; var d := DeleteMulti(DelToken(db, h), sid, user, HGetAll(db, sid).rth);
            Ready(c, d, used) && SessionStore.Rows(d) == SessionStore.Rows(db) - {sid}
  {
    SessionStore.KeysAfterGetDel(db, c.idle, c.abs, used, h);
    DeleteEnds(c, db, DelToken(db, h), used, db.rt[h].val, user);
  }

  lemma HolderOfKey(c: Config, db: Db, used: set<Sid>, h: Token)
    requires Ready(c, db, used) && h in db.rt
    ensures db.rt[h].val in db.sess && Holder(SessionStore.Rows(db), h) == Some(db.rt[h].val)
  {
    SessionStore.KeysComplete(db, c.idle, c.abs, used);
    assert SessionStore.PointerOk(db, h);
  }

  /** An uninterrupted `create`. */
  lemma CreateAlone(c: Config, s: State, tid: nat, used: set<Sid>, sid: Sid, user: UserId, ua: string, ip: string,
                    h: Token)
    returns (t: State)
    requires Ready(c, s.db, used) && Enabled(c, s, CreateStart(tid, sid, user, h)) && sid !in used && h !in s.db.rt
    ensures Alone(c, s, t, tid) && Ready(c, t.db, used + {sid})
    ensures SessionStore.Rows(t.db) == Create(SessionStore.Rows(s.db), s.db.now, sid, user, ua, ip, h)
    ensures t.calls == s.calls[tid := Issuing(user, sid, s.db.now)]
  {
    t := CreateSteps(c, s, tid, sid, user, ua, ip, h);
    SessionStore.KeysAfterCreate(s.db, c.idle, c.abs, used, sid, user, ua, ip, h);
    SessionStore.RowsAfterCreate(s.db, c.idle, c.abs, used, sid, user, ua, ip, h);
  }

  /** An uninterrupted `rotate` of a token that exists, answer included. */
  lemma RotateAlone(c: Config, s: State, tid: nat, used: set<Sid>, h: Token, next: Token) returns (t: State)
    requires Ready(c, s.db, used) && Enabled(c, s, RotateTake(tid, h, next)) && next !in s.db.rt
    ensures Alone(c, s, t, tid) && Ready(c, t.db, used)
    ensures var (table, r) := SessionTable.Rotate(SessionStore.Rows(s.db), c.abs, s.db.now, h, next);
            && SessionStore.Rows(t.db) == table
            && t.calls == if r.Some? then s.calls[tid := Issuing(r.value.1, r.value.0, s.db.now)] else s.calls
  {
    TableRotates(c, s.db, used, h, next);
    var sid := s.db.rt[h].val;
    var f := s.db.sess[sid].val;
    if s.db.now - f.created.value > c.abs {
      t := RotateTooOld(c, s, tid, h, next, f);
      TakenThenDeleted(c, s.db, used, h, f.user.value);
    } else {
      t := RotateInTime(c, s, tid, h, next, f);
      RotatedRow(c, s.db, used, h, next);
    }
  }

  lemma TableRotates(c: Config, db: Db, used: set<Sid>, h: Token, next: Token)
    requires Ready(c, db, used) && h in db.rt
    ensures db.rt[h].val in db.sess
    ensures var sid := db.rt[h].val; var rows := SessionStore.Rows(db);
            SessionTable.Rotate(rows, c.abs, db.now, h, next) ==
              if db.now - db.sess[sid].val.created.value > c.abs then (rows - {sid}, None)
              else (rows[sid := rows[sid].(last := db.now, token := next)], Some((sid, db.sess[sid].val.user.value)))
  {
    HolderOfKey(c, db, used, h);
  }

  lemma RotatedRow(c: Config, db: Db, used: set<Sid>, h: Token, next: Token)
    requires Ready(c, db, used) && h in db.rt && next !in db.rt && db.rt[h].val in db.sess
    ensures var sid := db.rt[h].val;
            var d := RotateMulti(DelToken(db, h), c.idle, c.abs, sid, db.sess[sid].val.user.value, db.now, next);
            && Ready(c, d, used)
            && SessionStore.Rows(d)
                == SessionStore.Rows(db)[sid := SessionStore.Rows(db)[sid].(last := db.now, token := next)]
  {
    SessionStore.KeysAfterRotate(db, c.idle, c.abs, used, h, next);
    SessionStore.RowsAfterRotate(db, c.idle, c.abs, used, h, next);
  }

  lemma LogoutOfRows(c: Config, db: Db, used: set<Sid>, h: Token)
    requires Ready(c, db, used)
    ensures var before, after := SessionStore.Rows(db), SessionTable.Logout(SessionStore.Rows(db), h);
            && (forall x :: x in after <==> x in before && before[x].token != h)
            && (forall x | x in after :: after[x] == before[x])
  {
    SessionStore.KeysComplete(db, c.idle, c.abs, used);
    LogoutEffect(SessionStore.Rows(db), h);
  }

  /** An uninterrupted `logout` of a token that exists. */
  lemma LogoutAlone(c: Config, s: State, tid: nat, used: set<Sid>, h: Token) returns (t: State)
    requires Ready(c, s.db, used) && Enabled(c, s, LogoutTake(tid, h))
    ensures Alone(c, s, t, tid) && Ready(c, t.db, used) && t.calls == s.calls
    ensures SessionStore.Rows(t.db) == SessionTable.Logout(SessionStore.Rows(s.db), h)
    ensures var before, after := SessionStore.Rows(s.db), SessionStore.Rows(t.db);
            && (forall x :: x in after <==> x in before && before[x].token != h)
            && (forall x | x in after :: after[x] == before[x])
  {
    var sid := s.db.rt[h].val;
    HolderOfKey(c, s.db, used, h);
    var owner := s.db.sess[sid].val.user.value;
    var u := LogoutReads(c, s, tid, h, owner);
    t := DeleteSteps(c, s, u, tid, Delete(sid, owner, NotRead, ForLogout(h)));
    TakenThenDeleted(c, s.db, used, h, owner);
    PutAndRemove(s.calls, tid, u.calls[tid]);
    LogoutOfRows(c, s.db, used, h);
  }

  /** A `revoke` goes past its first command exactly for a live session of the user, and for nobody else's. */
  lemma RevokeIsForTheOwner(c: Config, s: State, tid: nat, used: set<Sid>, user: UserId, sid: Sid)
    requires Ready(c, s.db, used) && tid !in s.calls
    ensures Enabled(c, s, RevokeOwner(tid, user, sid)) <==>
              sid in SessionStore.Rows(s.db) && SessionStore.Rows(s.db)[sid].user == user
  {
  }

  /** An uninterrupted `revoke` of a session of the user. */
  lemma RevokeAlone(c: Config, s: State, tid: nat, used: set<Sid>, user: UserId, sid: Sid) returns (t: State)
    requires Ready(c, s.db, used) && Enabled(c, s, RevokeOwner(tid, user, sid))
    ensures Alone(c, s, t, tid) && Ready(c, t.db, used) && t.calls == s.calls
    ensures Owns(SessionStore.Rows(s.db), user, sid)
    ensures SessionStore.Rows(t.db) == SessionTable.Revoke(SessionStore.Rows(s.db), user, sid)
    ensures SessionStore.Rows(t.db) == SessionStore.Rows(s.db) - {sid}
  {
    Begin(c, s, tid);
    var u := Then(c, s, s, RevokeOwner(tid, user, sid), tid);
    t := DeleteSteps(c, s, u, tid, Delete(sid, user, NotRead, ForRevoke));
    SessionStore.KeysAreKeysBut(s.db, c.idle, c.abs, used, sid);
    DeleteEnds(c, s.db, u.db, used, sid, user);
    PutAndRemove(s.calls, tid, u.calls[tid]);
  }

  // --- The two loops ---

  /** One round of the loop of `revoke_others` on an id that is not `keep`. */
  lemma OthersDeletes(c: Config, s: State, u: State, tid: nat, p: Pc, sid: Sid) returns (t: State)
    requires Alone(c, s, u, tid) && tid in u.calls && u.calls[tid] == p && p.Others? && sid in p.rest && sid != p.keep
    ensures Alone(c, s, t, tid) && t.db == DeleteMulti(u.db, sid, p.user, HGetAll(u.db, sid).rth)
    ensures t.calls == u.calls[tid := Others(p.user, p.keep, p.rest - {sid})]
  {
    var v := Then(c, s, u, OthersNext(tid, sid), tid);
    assert v.db == u.db && v.calls == u.calls[tid := Delete(sid, p.user, NotRead, ForOthers(p.keep, p.rest - {sid}))];
    t := OthersDeleteEnds(c, s, v, tid, v.calls[tid]);
  }

  lemma OthersDeleteEnds(c: Config, s: State, u: State, tid: nat, p: Pc) returns (t: State)
    requires Alone(c, s, u, tid) && tid in u.calls && u.calls[tid] == p && p.Delete? && p.seen.NotRead?
    requires p.job.ForOthers?
    ensures Alone(c, s, t, tid) && t.db == DeleteMulti(u.db, p.sid, p.user, HGetAll(u.db, p.sid).rth)
    ensures t.calls == u.calls[tid := Others(p.user, p.job.keep, p.job.rest)]
  {
    var v := Then(c, s, u, DeleteRead(tid), tid);
    t := Then(c, s, v, DeleteCommit(tid), tid);
  }

  lemma DeletedRow(c: Config, db: Db, used: set<Sid>, sid: Sid, user: UserId)
    requires Ready(c, db, used)
    ensures var d := DeleteMulti(db, sid, user, HGetAll(db, sid).rth);
            Ready(c, d, used) && SessionStore.Rows(d) == SessionStore.Rows(db) - {sid}
  {
    SessionStore.KeysAreKeysBut(db, c.idle, c.abs, used, sid);
    DeleteEnds(c, db, db, used, sid, user);
  }

  lemma {:induction false} OthersLoop(c: Config, s: State, u: State, tid: nat, used: set<Sid>, p: Pc) returns (t: State)
    requires Alone(c, s, u, tid) && tid in u.calls && u.calls[tid] == p && p.Others? && Ready(c, u.db, used)
    ensures Alone(c, s, t, tid) && Ready(c, t.db, used) && t.calls == u.calls[tid := Others(p.user, p.keep, {})]
    ensures SessionStore.Rows(t.db) == SessionStore.Rows(u.db) - (p.rest - {p.keep})
    decreases p.rest
  {
    if p.rest == {} {
      t := u;
    } else {
      var sid :| sid in p.rest;
      var v: State;
      if sid == p.keep {
        v := Then(c, s, u, OthersNext(tid, sid), tid);
        assert v.db == u.db && v.calls == u.calls[tid := Others(p.user, p.keep, p.rest - {sid})];
      } else {
        v := OthersDeletes(c, s, u, tid, p, sid);
        DeletedRow(c, u.db, used, sid, p.user);
      }
      t := OthersLoop(c, s, v, tid, used, v.calls[tid]);
      RemovedInTwo(SessionStore.Rows(u.db), SessionStore.Rows(v.db), p.rest, p.keep, sid);
    }
  }

  lemma RemovedInTwo<K, V>(m: map<K, V>, m': map<K, V>, rest: set<K>, keep: K, k: K)
    requires k in rest && m' == if k == keep then m else m - {k}
    ensures m' - (rest - {k} - {keep}) == m - (rest - {keep})
  {
  }

  /** An uninterrupted `revoke_others`. */
  lemma RevokeOthersAlone(c: Config, s: State, tid: nat, used: set<Sid>, user: UserId, keep: Sid) returns (t: State)
    requires Ready(c, s.db, used) && tid !in s.calls
    ensures Alone(c, s, t, tid) && Ready(c, t.db, used) && t.calls == s.calls
    ensures SessionStore.Rows(t.db) == SessionStore.Rows(s.db) - (SMembers(s.db, user) - {keep})
    ensures c.idle <= c.abs ==>
              var before, after := SessionStore.Rows(s.db), SessionStore.Rows(t.db);
              && after == SessionTable.RevokeOthers(before, user, keep)
              && (forall x :: x in after <==> x in before && (before[x].user != user || x == keep))
              && (forall x | x in after :: after[x] == before[x])
  {
    RevokeOthersEffect(SessionStore.Rows(s.db), user, keep);
    Begin(c, s, tid);
    var u := Then(c, s, s, OthersMembers(tid, user, keep), tid);
    assert u.db == s.db && u.calls == s.calls[tid := Others(user, keep, SMembers(s.db, user))];
    var v := OthersLoop(c, s, u, tid, used, u.calls[tid]);
    t := Returns(c, s, v, tid);
    PutAndRemove(s.calls, tid, v.calls[tid]);
    if c.idle <= c.abs { SessionStore.RevokeDoneExactly(s.db, c.idle, c.abs, used, user, keep); }
  }

  lemma Returns(c: Config, s: State, u: State, tid: nat) returns (t: State)
    requires Alone(c, s, u, tid) && tid in u.calls
    ensures Alone(c, s, t, tid) && t.db == u.db && t.calls == u.calls - {tid}
  {
    t := Then(c, s, u, Stop(tid), tid);
  }

  /** One round of the loop of `list`. */
  lemma ListRound(c: Config, s: State, u: State, tid: nat, p: Pc, sid: Sid) returns (t: State)
    requires Alone(c, s, u, tid) && tid in u.calls && u.calls[tid] == p && p.List? && sid in p.rest
    ensures Alone(c, s, t, tid) && t.db == if sid in u.db.sess then u.db else SRem(u.db, p.user, sid)
    ensures t.calls == u.calls[tid := List(p.user, p.rest - {sid})]
  {
    t := Then(c, s, u, ListNext(tid, sid), tid);
    if sid !in u.db.sess {
      assert t.db == u.db && t.calls == u.calls[tid := ListPurge(p.user, sid, p.rest - {sid})];
      t := Then(c, s, t, ListSrem(tid), tid);
    }
  }

  lemma PurgedIndex(c: Config, db: Db, used: set<Sid>, user: UserId, sid: Sid)
    requires Ready(c, db, used) && sid !in db.sess
    ensures Ready(c, SRem(db, user, sid), used) && SRem(db, user, sid).sess == db.sess
    ensures SMembers(SRem(db, user, sid), user) == SMembers(db, user) - {sid}
  {
    SessionStore.KeysAfterSRem(db, c.idle, c.abs, used, user, sid);
    SRemEffect(db, user, sid);
  }

  lemma {:induction false} ListLoop(c: Config, s: State, u: State, tid: nat, used: set<Sid>, p: Pc) returns (t: State)
    requires Alone(c, s, u, tid) && tid in u.calls && u.calls[tid] == p && p.List? && Ready(c, u.db, used)
    ensures Alone(c, s, t, tid) && Ready(c, t.db, used) && t.calls == u.calls[tid := List(p.user, {})]
    ensures t.db.sess == u.db.sess
    ensures SMembers(t.db, p.user) == SMembers(u.db, p.user) - (p.rest - u.db.sess.Keys)
    decreases p.rest
  {
    if p.rest == {} {
      t := u;
    } else {
      var sid :| sid in p.rest;
      var v := ListRound(c, s, u, tid, p, sid);
      if sid !in u.db.sess { PurgedIndex(c, u.db, used, p.user, sid); }
      t := ListLoop(c, s, v, tid, used, v.calls[tid]);
    }
  }

  /** An uninterrupted `list` changes no session and leaves the live ids of the index. */
  lemma ListAlone(c: Config, s: State, tid: nat, used: set<Sid>, user: UserId) returns (t: State)
    requires Ready(c, s.db, used) && tid !in s.calls
    ensures Alone(c, s, t, tid) && Ready(c, t.db, used) && t.calls == s.calls
    ensures SessionStore.Rows(t.db) == SessionStore.Rows(s.db)
    ensures SMembers(t.db, user) == SMembers(s.db, user) * SessionStore.Rows(s.db).Keys
    ensures c.idle <= c.abs ==> SMembers(t.db, user) == SessionsOf(SessionStore.Rows(s.db), user)
  {
    Begin(c, s, tid);
    var u := Then(c, s, s, ListMembers(tid, user), tid);
    assert u.db == s.db && u.calls == s.calls[tid := List(user, SMembers(s.db, user))];
    var v := ListLoop(c, s, u, tid, used, u.calls[tid]);
    t := Returns(c, s, v, tid);
    PutAndRemove(s.calls, tid, v.calls[tid]);
    PurgedIsLiveSet(c, s.db, t.db, used, user);
  }

  lemma PurgedIsLiveSet(c: Config, db: Db, d: Db, used: set<Sid>, user: UserId)
    requires Ready(c, db, used) && d.sess == db.sess
    requires SMembers(d, user) == SMembers(db, user) - (SMembers(db, user) - db.sess.Keys)
    ensures SessionStore.Rows(d) == SessionStore.Rows(db)
    ensures SMembers(d, user) == SMembers(db, user) * SessionStore.Rows(db).Keys
    ensures c.idle <= c.abs ==> SMembers(d, user) == SessionsOf(SessionStore.Rows(db), user)
  {
    SessionStore.IndexIsLiveSet(db, c.idle, c.abs, used, user);
  }
}
