/**
 What every reachable state of the session protocol satisfies, however the calls
 interleave. Each action has one small lemma saying that it keeps the invariant.
 */
module ProtocolInvariant {
  import opened Options
  import opened Redis
  import opened Protocol
  import Jwt

  /** The event that gave session `sid` the token it has, or last had, came within its absolute lifetime. */
  ghost predicate BornAt(c: Config, now: int, h: History, sid: Sid) {
    && IsBorn(h, sid)
    && sid in h.caps
    && sid in h.last
    && var e := h.last[sid];
    && Mints(e)
    && e.sid == sid
    && e.user == h.lives[sid].user
    && e.stamp - h.lives[sid].created <= c.abs
    && e.stamp <= e.at <= now
    && (e.Created? ==> e.at == h.lives[sid].since)
    && e.token in h.tokens && (h.tokens[e.token] == Out(sid) || h.tokens[e.token] == Spent(sid))
  }

  ghost predicate BornOk(c: Config, now: int, h: History) {
    forall sid | sid in h.lives && h.lives[sid].Born? :: BornAt(c, now, h, sid)
  }

  /** A session hash belongs to a born session; only `create` wrote its owner, only a mint its token and expiry. */
  ghost predicate SessAt(c: Config, db: Db, h: History, sid: Sid)
    requires sid in db.sess
  {
    var e := db.sess[sid];
    && BornAt(c, db.now, h, sid)
    && e.val.rth == Some(h.last[sid].token)
    && e.expiry == Some(h.last[sid].at + c.idle)
    && db.now < h.last[sid].at + c.idle
    && (e.val.user.Some? ==>
          && e.val.user.value == h.lives[sid].user && e.val.created == Some(h.lives[sid].created)
          && (h.last[sid].Rotated? ==> h.last[sid].at < h.last[sid].stamp + c.idle))
  }

  ghost predicate SessOk(c: Config, db: Db, h: History) {
    forall sid | sid in db.sess :: SessAt(c, db, h, sid)
  }

  /** A token key points at the session whose capability sits at that very key. */
  ghost predicate TokenAt(c: Config, db: Db, h: History, t: Token)
    requires t in db.rt
  {
    var sid := db.rt[t].val;
    && BornAt(c, db.now, h, sid)
    && h.caps[sid] == AtKey(t)
    && h.last[sid].token == t
    && t in h.tokens && h.tokens[t] == Out(sid)
    && db.rt[t].expiry == Some(h.last[sid].at + c.idle)
    && db.now < h.last[sid].at + c.idle
  }

  ghost predicate TokensOk(c: Config, db: Db, h: History) {
    forall t | t in db.rt :: TokenAt(c, db, h, t)
  }

  /** An index only holds sessions that were created for its user, and expires at most `abs` from now. */
  ghost predicate IndexAt(c: Config, db: Db, h: History, u: UserId)
    requires u in db.usess
  {
    && db.usess[u].expiry.Some?
    && db.now < db.usess[u].expiry.value <= db.now + c.abs
    && (forall sid | sid in db.usess[u].val :: IsBorn(h, sid) && h.lives[sid].user == u)
  }

  ghost predicate IndexOk(c: Config, db: Db, h: History) {
    forall u | u in db.usess :: IndexAt(c, db, h, u)
  }

  ghost predicate AllBorn(h: History, sids: set<Sid>) {
    forall sid | sid in sids :: IsBorn(h, sid)
  }

  /** The born session `sid` whose capability call `tid` took, by removing the key of `token`. */
  ghost predicate Holds(h: History, tid: nat, sid: Sid, token: Token) {
    && IsBorn(h, sid) && sid in h.caps && h.caps[sid] == InHand(tid)
    && sid in h.last && Mints(h.last[sid]) && h.last[sid].token == token
    && token in h.tokens && h.tokens[token] == Spent(sid)
  }

  /** The clock reading `stamp` of a call that found session `sid` younger than `abs`. */
  ghost predicate Young(c: Config, now: int, h: History, sid: Sid, user: UserId, stamp: int) {
    IsBorn(h, sid) && h.lives[sid].user == user && stamp - h.lives[sid].created <= c.abs && stamp <= now
  }

  ghost predicate CallOk(c: Config, db: Db, h: History, tid: nat, p: Pc) {
    match p
    case Creating(sid, user, token, stamp) =>
      && sid in h.lives && h.lives[sid] == Pending(tid)
      && token in h.tokens && h.tokens[token] == Reserved(tid)
      && stamp <= db.now
    case Rotate(used, next, sid, stage) =>
      && Holds(h, tid, sid, used)
      && next in h.tokens && h.tokens[next] == Reserved(tid)
      && (stage.Read? || stage.Checked? ==> stage.user == h.lives[sid].user && stage.created == h.lives[sid].created)
      && (stage.Checked? ==> Young(c, db.now, h, sid, stage.user, stage.stamp) && h.last[sid].at <= stage.stamp)
    case Issuing(user, sid, stamp) => Young(c, db.now, h, sid, user, stamp)
    case Logout(used, sid) => Holds(h, tid, sid, used)
    case Delete(sid, user, seen, job) =>
      && IsBorn(h, sid)
      && (job.ForRotate? || job.ForLogout? ==> Holds(h, tid, sid, job.used))
      && (job.ForOthers? ==> AllBorn(h, job.rest))
    case Others(user, keep, rest) => AllBorn(h, rest)
    case List(user, rest) => AllBorn(h, rest)
    case ListPurge(user, sid, rest) => IsBorn(h, sid) && Owner(db, sid).None? && AllBorn(h, rest)
    case Auth(claims, verified) =>
      && claims in h.issued
      && verified <= claims.exp + Jwt.LEEWAY && verified <= db.now
  }

  ghost predicate CallsOk(c: Config, s: State) {
    forall tid | tid in s.calls :: CallOk(c, s.db, s.hist, tid, s.calls[tid])
  }

  ghost predicate KeysOk(c: Config, db: Db, h: History) {
    BornOk(c, db.now, h) && SessOk(c, db, h) && TokensOk(c, db, h) && IndexOk(c, db, h)
  }

  ghost predicate Inv(c: Config, s: State) {
    KeysOk(c, s.db, s.hist) && CallsOk(c, s)
  }

  // --- What each command does to the keys ---

  lemma KeysAdvance(c: Config, db: Db, h: History, t: int)
    requires KeysOk(c, db, h) && t > db.now
    ensures KeysOk(c, Advance(db, t), h)
  {
    assert forall sid | sid in h.lives && h.lives[sid].Born? :: BornAt(c, db.now, h, sid);
  }

  lemma KeysReserve(c: Config, db: Db, h: History, tid: nat, t: Token)
    requires KeysOk(c, db, h) && t !in h.tokens
    ensures KeysOk(c, db, Reserve(h, tid, t))
  {
  }

  lemma KeysPending(c: Config, db: Db, h: History, tid: nat, sid: Sid)
    requires KeysOk(c, db, h) && sid !in h.lives
    ensures KeysOk(c, db, h.(lives := h.lives[sid := Pending(tid)]))
  {
  }

  lemma KeysGrab(c: Config, db: Db, h: History, tid: nat, t: Token)
    requires KeysOk(c, db, h) && t in db.rt
    ensures KeysOk(c, DelToken(db, t), Grabbed(h, tid, t, db.rt[t].val))
    ensures Holds(Grabbed(h, tid, t, db.rt[t].val), tid, db.rt[t].val, t)
  {
    assert TokenAt(c, db, h, t);
  }

  lemma KeysSRem(c: Config, db: Db, h: History, u: UserId, sid: Sid)
    requires KeysOk(c, db, h)
    ensures KeysOk(c, SRem(db, u, sid), h)
  {
  }

  lemma KeysDelete(c: Config, db: Db, h: History, sid: Sid, u: UserId, rth: Option<Token>)
    requires KeysOk(c, db, h)
    ensures KeysOk(c, DeleteMulti(db, sid, u, rth), h)
  {
    var d1 := if rth.Some? then DelToken(db, rth.value) else db;
    assert KeysOk(c, d1, h);
    assert KeysOk(c, DelSess(d1, sid), h);
    KeysSRem(c, DelSess(d1, sid), h, u, sid);
  }

  /** The history before and after a mint agree on every other session. */
  ghost predicate MintStep(c: Config, db: Db, h: History, h': History, e: Event) {
    && Mints(e) && e.at == db.now
    && BornOk(c, db.now, h) && BornAt(c, db.now, h', e.sid)
    && (forall sid | IsBorn(h, sid) :: IsBorn(h', sid) && h'.lives[sid] == h.lives[sid])
    && h'.caps == h.caps[e.sid := AtKey(e.token)]
    && h'.tokens == h.tokens[e.token := Out(e.sid)]
    && h'.last == h.last[e.sid := e]
    && e.token in h.tokens && h.tokens[e.token].Reserved?
  }

  lemma MintOther(c: Config, db: Db, h: History, h': History, e: Event, sid: Sid)
    requires MintStep(c, db, h, h', e) && IsBorn(h, sid) && sid != e.sid
    ensures BornAt(c, db.now, h', sid) && h'.last[sid] == h.last[sid] && h'.caps[sid] == h.caps[sid]
    ensures h'.lives[sid] == h.lives[sid]
  {
    assert BornAt(c, db.now, h, sid);
  }

  lemma MintSess(c: Config, db: Db, h: History, db': Db, h': History, e: Event, f: Fields)
    requires Sane(c) && MintStep(c, db, h, h', e) && SessOk(c, db, h)
    requires db'.now == db.now && db'.sess == db.sess[e.sid := Entry(f, Some(db.now + c.idle))]
    requires f.rth == Some(e.token)
    requires f.user.Some? ==>
               && f.user.value == h'.lives[e.sid].user && f.created == Some(h'.lives[e.sid].created)
               && (e.Rotated? ==> e.at < e.stamp + c.idle)
    ensures SessOk(c, db', h')
  {
    forall sid | sid in db'.sess ensures SessAt(c, db', h', sid) {
      if sid != e.sid {
        assert SessAt(c, db, h, sid);
        MintOther(c, db, h, h', e, sid);
      }
    }
  }

  lemma MintTokens(c: Config, db: Db, h: History, db': Db, h': History, e: Event)
    requires Sane(c) && MintStep(c, db, h, h', e) && TokensOk(c, db, h)
    requires db'.now == db.now && db'.rt == db.rt[e.token := Entry(e.sid, Some(db.now + c.idle))]
    requires forall t | t in db.rt :: db.rt[t].val != e.sid
    ensures TokensOk(c, db', h')
  {
    forall t | t in db'.rt ensures TokenAt(c, db', h', t) {
      if t != e.token {
        assert TokenAt(c, db, h, t);
        MintOther(c, db, h, h', e, db.rt[t].val);
      }
    }
  }

  lemma CreateIndex(c: Config, db: Db, h: History, e: Event, ua: string, ip: string)
    requires Sane(c) && KeysOk(c, db, h) && e.Created? && e.sid !in db.sess
    requires e.sid in h.lives && h.lives[e.sid].Pending?
    ensures IndexOk(c, CreateMulti(db, c.idle, c.abs, e.sid, e.user, e.stamp, ua, ip, e.token),
                    Minted(h.(lives := h.lives[e.sid := Born(e.user, e.stamp, e.at)]), e))
  {
    var db' := CreateMulti(db, c.idle, c.abs, e.sid, e.user, e.stamp, ua, ip, e.token);
    CreateMultiEffect(db, c.idle, c.abs, e.sid, e.user, e.stamp, ua, ip, e.token);
    var h' := Minted(h.(lives := h.lives[e.sid := Born(e.user, e.stamp, e.at)]), e);
    forall u | u in db'.usess ensures IndexAt(c, db', h', u) {
      assert u in db.usess ==> IndexAt(c, db, h, u);
    }
  }

  lemma KeysCreate(c: Config, db: Db, h: History, e: Event, ua: string, ip: string)
    requires Sane(c) && KeysOk(c, db, h)
    requires e.Created? && e.at == db.now && e.stamp <= db.now
    requires e.sid in h.lives && h.lives[e.sid].Pending? && e.token in h.tokens && h.tokens[e.token].Reserved?
    ensures KeysOk(c, CreateMulti(db, c.idle, c.abs, e.sid, e.user, e.stamp, ua, ip, e.token),
                   Minted(h.(lives := h.lives[e.sid := Born(e.user, e.stamp, e.at)]), e))
  {
    var db' := CreateMulti(db, c.idle, c.abs, e.sid, e.user, e.stamp, ua, ip, e.token);
    var h' := Minted(h.(lives := h.lives[e.sid := Born(e.user, e.stamp, e.at)]), e);
    assert e.sid !in db.sess;
    CreateMultiEffect(db, c.idle, c.abs, e.sid, e.user, e.stamp, ua, ip, e.token);
    forall sid | IsBorn(h', sid) && sid != e.sid
      ensures BornAt(c, db'.now, h', sid)
    {
      MintOther(c, db, h, h', e, sid);
    }
    forall t | t in db.rt ensures db.rt[t].val != e.sid { assert TokenAt(c, db, h, t); }
    MintSess(c, db, h, db', h', e, db'.sess[e.sid].val);
    MintTokens(c, db, h, db', h', e);
    CreateIndex(c, db, h, e, ua, ip);
  }

  lemma KeysRotate(c: Config, db: Db, h: History, tid: nat, e: Event)
    requires Sane(c) && KeysOk(c, db, h)
    requires e.Rotated? && e.at == db.now && Young(c, db.now, h, e.sid, e.user, e.stamp)
    requires Holds(h, tid, e.sid, e.used) && h.last[e.sid].at <= e.stamp && e.token in h.tokens
    requires h.tokens[e.token].Reserved?
    ensures KeysOk(c, RotateMulti(db, c.idle, c.abs, e.sid, e.user, e.stamp, e.token), Minted(h, e))
  {
    var db' := RotateMulti(db, c.idle, c.abs, e.sid, e.user, e.stamp, e.token);
    var h' := Minted(h, e);
    RotateMultiEffect(db, c.idle, c.abs, e.sid, e.user, e.stamp, e.token);
    forall sid | IsBorn(h', sid) && sid != e.sid
      ensures BornAt(c, db'.now, h', sid)
    {
      MintOther(c, db, h, h', e, sid);
    }
    forall t | t in db.rt ensures db.rt[t].val != e.sid { assert TokenAt(c, db, h, t); }
    assert e.sid in db.sess ==> SessAt(c, db, h, e.sid);
    MintSess(c, db, h, db', h', e, db'.sess[e.sid].val);
    MintTokens(c, db, h, db', h', e);
    forall u | u in db'.usess ensures IndexAt(c, db', h', u) {
      assert IndexAt(c, db, h, u);
    }
  }

  // --- What each action does to the calls in flight ---

  /** A step of some other call, or of the clock, as call `tid` sees it. */
  ghost predicate Steady(db: Db, h: History, db': Db, h': History, tid: nat) {
    && (forall sid | IsBorn(h, sid) :: sid in h'.lives && h'.lives[sid] == h.lives[sid])
    && (forall sid | sid in h.lives && h.lives[sid] == Pending(tid) :: sid in h'.lives && h'.lives[sid] == Pending(tid))
    && (forall t | t in h.tokens && h.tokens[t] == Reserved(tid) :: t in h'.tokens && h'.tokens[t] == Reserved(tid))
    && (forall sid | IsBorn(h, sid) && sid in h.caps && h.caps[sid] == InHand(tid) && sid in h.last ::
          sid in h'.caps && h'.caps[sid] == InHand(tid) && sid in h'.last && h'.last[sid] == h.last[sid])
    && (forall t | t in h.tokens && h.tokens[t].Spent? :: t in h'.tokens && h'.tokens[t] == h.tokens[t])
    && h.issued <= h'.issued
    && StaysDead(db, h, db')
    && db.now <= db'.now
  }

  /** No command gives a born session an owner again. */
  ghost predicate StaysDead(db: Db, h: History, db': Db) {
    forall sid | IsBorn(h, sid) && Owner(db, sid).None? :: Owner(db', sid).None?
  }

  lemma SteadyKeepsCall(c: Config, db: Db, h: History, db': Db, h': History, tid: nat, p: Pc)
    requires Steady(db, h, db', h', tid)
    requires CallOk(c, db, h, tid, p)
    ensures CallOk(c, db', h', tid, p)
  {
  }

  /** If every other call sees a steady step, only the call that moved needs a proof. */
  lemma KeepsCalls(c: Config, s: State, s': State, mover: Option<nat>)
    requires CallsOk(c, s)
    requires forall tid | tid in s'.calls && Some(tid) != mover ::
               tid in s.calls && s'.calls[tid] == s.calls[tid] && Steady(s.db, s.hist, s'.db, s'.hist, tid)
    requires mover.Some? && mover.value in s'.calls ==> CallOk(c, s'.db, s'.hist, mover.value, s'.calls[mover.value])
    ensures CallsOk(c, s')
  {
    forall tid | tid in s'.calls ensures CallOk(c, s'.db, s'.hist, tid, s'.calls[tid]) {
      if Some(tid) != mover {
        SteadyKeepsCall(c, s.db, s.hist, s'.db, s'.hist, tid, s.calls[tid]);
      }
    }
  }

  ghost predicate Forward(s: State, s': State) {
    && StaysDead(s.db, s.hist, s'.db)
    && (forall sid | IsBorn(s.hist, sid) :: sid in s'.hist.lives && s'.hist.lives[sid] == s.hist.lives[sid])
    && s.db.now <= s'.db.now
  }

  ghost predicate Kept(c: Config, s: State, s': State) {
    Inv(c, s') && Forward(s, s')
  }

  lemma DeleteStaysDead(db: Db, h: History, sid: Sid, u: UserId, rth: Option<Token>)
    ensures StaysDead(db, h, DeleteMulti(db, sid, u, rth))
    ensures Owner(DeleteMulti(db, sid, u, rth), sid).None?
    ensures DeleteMulti(db, sid, u, rth).now == db.now
  {
  }

  lemma KeepsTick(c: Config, s: State, t: int)
    requires Sane(c) && Inv(c, s) && t > s.db.now
    ensures Kept(c, s, s.(db := Advance(s.db, t)))
  {
    KeysAdvance(c, s.db, s.hist, t);
    KeepsCalls(c, s, s.(db := Advance(s.db, t)), None);
  }

  lemma CreateSteady(c: Config, s: State, tid: nat, ua: string, ip: string, other: nat)
    requires Sane(c) && Inv(c, s) && tid in s.calls && s.calls[tid].Creating? && other != tid
    ensures var s' := DoCreateCommit(c, s, tid, ua, ip); Steady(s.db, s.hist, s'.db, s'.hist, other)
  {
    var p := s.calls[tid];
    assert CallOk(c, s.db, s.hist, tid, p);
    assert p.sid !in s.db.sess;
    CreateMultiEffect(s.db, c.idle, c.abs, p.sid, p.user, p.stamp, ua, ip, p.token);
  }

  lemma KeepsCreateCommit(c: Config, s: State, tid: nat, ua: string, ip: string)
    requires Sane(c) && Inv(c, s) && tid in s.calls && s.calls[tid].Creating?
    ensures Kept(c, s, DoCreateCommit(c, s, tid, ua, ip))
  {
    var p := s.calls[tid];
    assert CallOk(c, s.db, s.hist, tid, p);
    KeysCreate(c, s.db, s.hist, Created(p.sid, p.user, p.token, p.stamp, s.db.now), ua, ip);
    forall other | other != tid
      ensures var s' := DoCreateCommit(c, s, tid, ua, ip); Steady(s.db, s.hist, s'.db, s'.hist, other)
    {
      CreateSteady(c, s, tid, ua, ip, other);
    }
    assert Steady(s.db, s.hist, DoCreateCommit(c, s, tid, ua, ip).db, DoCreateCommit(c, s, tid, ua, ip).hist, tid + 1);
    KeepsCalls(c, s, DoCreateCommit(c, s, tid, ua, ip), Some(tid));
  }

  lemma GrabSteady(c: Config, db: Db, h: History, tid: nat, t: Token, next: Token, other: nat)
    requires KeysOk(c, db, h) && t in db.rt && next !in h.tokens && other != tid
    ensures Steady(db, h, DelToken(db, t), Reserve(Grabbed(h, tid, t, db.rt[t].val), tid, next), other)
  {
    assert TokenAt(c, db, h, t);
  }

  lemma KeepsRotateTake(c: Config, s: State, tid: nat, used: Token, next: Token)
    requires Sane(c) && Inv(c, s) && Enabled(c, s, RotateTake(tid, used, next))
    ensures Kept(c, s, DoRotateTake(s, tid, used, next))
  {
    assert TokenAt(c, s.db, s.hist, used);
    KeysGrab(c, s.db, s.hist, tid, used);
    KeysReserve(c, DelToken(s.db, used), Grabbed(s.hist, tid, used, s.db.rt[used].val), tid, next);
    forall other | other != tid
      ensures var s' := DoRotateTake(s, tid, used, next); Steady(s.db, s.hist, s'.db, s'.hist, other)
    {
      GrabSteady(c, s.db, s.hist, tid, used, next, other);
    }
    KeepsCalls(c, s, DoRotateTake(s, tid, used, next), Some(tid));
  }

  lemma LogoutTakeSteady(c: Config, db: Db, h: History, tid: nat, t: Token, other: nat)
    requires KeysOk(c, db, h) && t in db.rt && other != tid
    ensures Steady(db, h, DelToken(db, t), Grabbed(h, tid, t, db.rt[t].val), other)
  {
    assert TokenAt(c, db, h, t);
  }

  lemma KeepsLogoutTake(c: Config, s: State, tid: nat, used: Token)
    requires Sane(c) && Inv(c, s) && Enabled(c, s, LogoutTake(tid, used))
    ensures Kept(c, s, DoLogoutTake(s, tid, used))
  {
    assert TokenAt(c, s.db, s.hist, used);
    KeysGrab(c, s.db, s.hist, tid, used);
    forall other | other != tid
      ensures var s' := DoLogoutTake(s, tid, used); Steady(s.db, s.hist, s'.db, s'.hist, other)
    {
      LogoutTakeSteady(c, s.db, s.hist, tid, used, other);
    }
    KeepsCalls(c, s, DoLogoutTake(s, tid, used), Some(tid));
  }

  lemma RotateCommitSteady(c: Config, s: State, tid: nat, other: nat)
    requires Sane(c) && Inv(c, s) && Enabled(c, s, RotateCommit(tid)) && other != tid
    ensures var s' := DoRotateCommit(c, s, tid); Steady(s.db, s.hist, s'.db, s'.hist, other)
  {
    var p := s.calls[tid];
    assert CallOk(c, s.db, s.hist, tid, p);
    RotateMultiEffect(s.db, c.idle, c.abs, p.sid, p.stage.user, p.stage.stamp, p.next);
  }

  lemma KeepsRotateCommit(c: Config, s: State, tid: nat)
    requires Sane(c) && Inv(c, s) && Enabled(c, s, RotateCommit(tid))
    ensures Kept(c, s, DoRotateCommit(c, s, tid))
  {
    var p := s.calls[tid];
    assert CallOk(c, s.db, s.hist, tid, p);
    KeysRotate(c, s.db, s.hist, tid, Rotated(p.sid, p.stage.user, p.used, p.next, p.stage.stamp, s.db.now));
    forall other | other != tid
      ensures var s' := DoRotateCommit(c, s, tid); Steady(s.db, s.hist, s'.db, s'.hist, other)
    {
      RotateCommitSteady(c, s, tid, other);
    }
    assert Steady(s.db, s.hist, DoRotateCommit(c, s, tid).db, DoRotateCommit(c, s, tid).hist, tid + 1);
    KeepsCalls(c, s, DoRotateCommit(c, s, tid), Some(tid));
  }

  lemma KeepsDeleteCommit(c: Config, s: State, tid: nat)
    requires Sane(c) && Inv(c, s) && Enabled(c, s, DeleteCommit(tid))
    ensures Kept(c, s, DoDeleteCommit(s, tid))
  {
    var p := s.calls[tid];
    assert CallOk(c, s.db, s.hist, tid, p);
    KeysDelete(c, s.db, s.hist, p.sid, p.user, p.seen.rth);
    DeleteStaysDead(s.db, s.hist, p.sid, p.user, p.seen.rth);
    KeepsCalls(c, s, DoDeleteCommit(s, tid), Some(tid));
  }

  lemma CreateStartSteady(c: Config, s: State, a: Action, other: nat)
    requires a.CreateStart? && Enabled(c, s, a) && other != a.tid
    ensures var s' := Do(c, s, a); Steady(s.db, s.hist, s'.db, s'.hist, other)
  {
  }

  lemma KeepsCreateStart(c: Config, s: State, a: Action)
    requires Sane(c) && Inv(c, s) && a.CreateStart? && Enabled(c, s, a)
    ensures Kept(c, s, Do(c, s, a))
  {
    KeysPending(c, s.db, s.hist, a.tid, a.sid);
    KeysReserve(c, s.db, s.hist.(lives := s.hist.lives[a.sid := Pending(a.tid)]), a.tid, a.token);
    forall other | other != a.tid ensures var s' := Do(c, s, a); Steady(s.db, s.hist, s'.db, s'.hist, other) {
      CreateStartSteady(c, s, a, other);
    }
    assert Steady(s.db, s.hist, Do(c, s, a).db, Do(c, s, a).hist, a.tid + 1);
    KeepsCalls(c, s, Do(c, s, a), Some(a.tid));
  }

  lemma KeepsListSrem(c: Config, s: State, tid: nat)
    requires Sane(c) && Inv(c, s) && Enabled(c, s, ListSrem(tid))
    ensures Kept(c, s, Do(c, s, ListSrem(tid)))
  {
    var p := s.calls[tid];
    assert CallOk(c, s.db, s.hist, tid, p);
    KeysSRem(c, s.db, s.hist, p.user, p.sid);
    KeepsCalls(c, s, Do(c, s, ListSrem(tid)), Some(tid));
  }

  predicate OnlyMovesItsCall(a: Action) {
    || a.RotateRead? || a.RotateClock? || a.LogoutOwner? || a.RevokeOwner? || a.OthersMembers? || a.OthersNext?
    || a.DeleteRead? || a.ListMembers? || a.ListNext? || a.AuthVerify? || a.AuthOwner? || a.Stop?
  }

  /** The actions that leave keys and history alone. */
  lemma KeepsMove(c: Config, s: State, a: Action)
    requires Sane(c) && Inv(c, s) && Enabled(c, s, a) && OnlyMovesItsCall(a)
    ensures Kept(c, s, Do(c, s, a))
  {
    var s' := Do(c, s, a);
    assert s'.db == s.db && s'.hist == s.hist;
    assert forall tid | tid in s'.calls && tid != a.tid :: tid in s.calls && s'.calls[tid] == s.calls[tid];
    if a.tid in s'.calls {
      if a.tid in s.calls { assert CallOk(c, s.db, s.hist, a.tid, s.calls[a.tid]); }
      MoverOk(c, s, a);
    }
  }

  lemma MoverOk(c: Config, s: State, a: Action)
    requires Sane(c) && Inv(c, s) && Enabled(c, s, a) && OnlyMovesItsCall(a)
    requires a.tid in Do(c, s, a).calls
    ensures CallOk(c, s.db, s.hist, a.tid, Do(c, s, a).calls[a.tid])
  {
    if a.tid in s.calls {
      assert CallOk(c, s.db, s.hist, a.tid, s.calls[a.tid]);
    }
    match a
    case RotateRead(tid) => assert s.calls[tid].sid in s.db.sess ==> SessAt(c, s.db, s.hist, s.calls[tid].sid);
    case LogoutOwner(tid) => assert s.calls[tid].sid in s.db.sess ==> SessAt(c, s.db, s.hist, s.calls[tid].sid);
    case RevokeOwner(tid, user, sid) => assert SessAt(c, s.db, s.hist, sid);
    case OthersMembers(tid, user, keep) => assert user in s.db.usess ==> IndexAt(c, s.db, s.hist, user);
    case ListMembers(tid, user) => assert user in s.db.usess ==> IndexAt(c, s.db, s.hist, user);
    case _ =>
  }

  lemma KeysIssued(c: Config, db: Db, h: History, claims: Jwt.Claims)
    requires KeysOk(c, db, h)
    ensures KeysOk(c, db, h.(issued := h.issued + {claims}))
  {
  }

  lemma IssueSteady(c: Config, s: State, a: Action, other: nat)
    requires a.IssueJwt? && Enabled(c, s, a) && other != a.tid
    ensures var s' := Do(c, s, a); Steady(s.db, s.hist, s'.db, s'.hist, other)
  {
  }

  lemma KeepsIssue(c: Config, s: State, a: Action)
    requires Sane(c) && Inv(c, s) && a.IssueJwt? && Enabled(c, s, a)
    ensures Kept(c, s, Do(c, s, a))
  {
    var p := s.calls[a.tid];
    KeysIssued(c, s.db, s.hist, Jwt.Issue(c.jwt, s.db.now, p.user, a.role, p.sid, a.jti).claims);
    forall other | other != a.tid ensures var s' := Do(c, s, a); Steady(s.db, s.hist, s'.db, s'.hist, other) {
      IssueSteady(c, s, a, other);
    }
    assert Steady(s.db, s.hist, Do(c, s, a).db, Do(c, s, a).hist, a.tid + 1);
    KeepsCalls(c, s, Do(c, s, a), Some(a.tid));
  }

  /** Every action keeps the invariant, and neither an owner nor a life already begun is ever rewritten. */
  lemma Keeps(c: Config, s: State, a: Action)
    requires Sane(c) && Inv(c, s) && Enabled(c, s, a)
    ensures Kept(c, s, Do(c, s, a))
  {
    match a
    case Tick(t) => KeepsTick(c, s, t);
    case CreateStart(_, _, _, _) => KeepsCreateStart(c, s, a);
    case CreateCommit(tid, ua, ip) => KeepsCreateCommit(c, s, tid, ua, ip);
    case IssueJwt(_, _, _) => KeepsIssue(c, s, a);
    case RotateTake(tid, used, next) => KeepsRotateTake(c, s, tid, used, next);
    case RotateCommit(tid) => KeepsRotateCommit(c, s, tid);
    case LogoutTake(tid, used) => KeepsLogoutTake(c, s, tid, used);
    case DeleteCommit(tid) => KeepsDeleteCommit(c, s, tid);
    case ListSrem(tid) => KeepsListSrem(c, s, tid);
    case _ => KeepsMove(c, s, a);
  }
}
