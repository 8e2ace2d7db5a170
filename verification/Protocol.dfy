/**
 The session protocol of backend/src/session/store.rs as a state machine: any
 number of calls are in flight, and one action is one Redis command, one MULTI
 block, one clock reading, one clock tick, or the death of a call. Between two
 commands of a call anything may happen, including an expiry.

 `History` records what an observer of the whole run would write down. The calls
 never read it, except to make fresh identifiers and unforgeable access tokens.
 */
module Protocol {
  import opened Options
  import opened Redis
  import Jwt

  datatype Config = Config(idle: int, abs: int, jwt: Jwt.Config)

  predicate Sane(c: Config) {
    c.idle >= 1 && c.abs >= 1
  }

  // --- Calls in flight ---

  /** Where a `rotate` stands after its GETDEL. */
  datatype RotateStage = Taken | Read(user: UserId, created: int) | Checked(user: UserId, created: int, stamp: int)

  /** Whether a `delete` has performed its HGET of `rth`. */
  datatype DeleteStage = NotRead | Seen(rth: Option<Token>)

  /** The operation on whose behalf a `delete` runs. */
  datatype Job = ForRotate(used: Token) | ForLogout(used: Token) | ForRevoke | ForOthers(keep: Sid, rest: set<Sid>)

  datatype Pc =
    | Creating(sid: Sid, user: UserId, token: Token, stamp: int)
    | Rotate(used: Token, next: Token, sid: Sid, stage: RotateStage)
    | Issuing(user: UserId, sid: Sid, stamp: int)
    | Logout(used: Token, sid: Sid)
    | Delete(sid: Sid, user: UserId, seen: DeleteStage, job: Job)
    | Others(user: UserId, keep: Sid, rest: set<Sid>)
    | List(user: UserId, rest: set<Sid>)
    | ListPurge(user: UserId, sid: Sid, rest: set<Sid>)
    | Auth(claims: Jwt.Claims, verified: int)

  // --- What the observer writes down ---

  datatype Event =
    | Created(sid: Sid, user: UserId, token: Token, stamp: int, at: int)
    | Took(token: Token, sid: Sid)
    | Rotated(sid: Sid, user: UserId, used: Token, token: Token, stamp: int, at: int)
    | Killed(sid: Sid)
    | Issued(claims: Jwt.Claims, stamp: int, at: int)
    | Accepted(claims: Jwt.Claims, verified: int, at: int)
    | Dropped(token: Token, sid: Sid)

  datatype Life = Pending(tid: nat) | Born(user: UserId, created: int, since: int)

  datatype Cap = AtKey(token: Token) | InHand(tid: nat)

  datatype TokenState = Reserved(tid: nat) | Out(sid: Sid) | Spent(sid: Sid)

  datatype History = History(
    lives: map<Sid, Life>,
    caps: map<Sid, Cap>,
    tokens: map<Token, TokenState>,
    last: map<Sid, Event>,
    issued: set<Jwt.Claims>)

  datatype State = State(db: Db, calls: map<nat, Pc>, hist: History, log: seq<Event>)

  function Start(now: int): State {
    State(Db(now, map[], map[], map[]), map[], History(map[], map[], map[], map[], {}), [])
  }

  predicate IsBorn(h: History, sid: Sid) {
    sid in h.lives && h.lives[sid].Born?
  }

  predicate Mints(e: Event) {
    e.Created? || e.Rotated?
  }

  /** The token, and its session, that a call took by GETDEL and has not finished with. */
  function InHandOf(p: Pc): Option<(Token, Sid)> {
    match p
    case Rotate(used, _, sid, _) => Some((used, sid))
    case Logout(used, sid) => Some((used, sid))
    case Delete(sid, _, _, job) => if job.ForRotate? || job.ForLogout? then Some((job.used, sid)) else None
    case _ => None
  }

  // --- Actions ---

  datatype Action =
    | Tick(t: int)
    | CreateStart(tid: nat, sid: Sid, user: UserId, token: Token)
    | CreateCommit(tid: nat, ua: string, ip: string)
    | IssueJwt(tid: nat, role: Jwt.Role, jti: nat)
    | RotateTake(tid: nat, used: Token, next: Token)
    | RotateRead(tid: nat)
    | RotateClock(tid: nat)
    | RotateCommit(tid: nat)
    | LogoutTake(tid: nat, used: Token)
    | LogoutOwner(tid: nat)
    | RevokeOwner(tid: nat, user: UserId, sid: Sid)
    | OthersMembers(tid: nat, user: UserId, keep: Sid)
    | OthersNext(tid: nat, sid: Sid)
    | DeleteRead(tid: nat)
    | DeleteCommit(tid: nat)
    | ListMembers(tid: nat, user: UserId)
    | ListNext(tid: nat, sid: Sid)
    | ListSrem(tid: nat)
    | AuthVerify(tid: nat, bearer: Jwt.Jwt)
    | AuthOwner(tid: nat)
    | Stop(tid: nat)  // the call returns, or dies with its connection

  predicate Enabled(c: Config, s: State, a: Action) {
    match a
    case Tick(t) => t > s.db.now
    case CreateStart(tid, sid, user, token) => tid !in s.calls && sid !in s.hist.lives && token !in s.hist.tokens
    case CreateCommit(tid, ua, ip) => tid in s.calls && s.calls[tid].Creating?
    case IssueJwt(tid, role, jti) => tid in s.calls && s.calls[tid].Issuing?
    case RotateTake(tid, used, next) => tid !in s.calls && used in s.db.rt && next !in s.hist.tokens
    case RotateRead(tid) => tid in s.calls && s.calls[tid].Rotate? && s.calls[tid].stage.Taken?
    case RotateClock(tid) => tid in s.calls && s.calls[tid].Rotate? && s.calls[tid].stage.Read?
    case RotateCommit(tid) => tid in s.calls && s.calls[tid].Rotate? && s.calls[tid].stage.Checked?
    case LogoutTake(tid, used) => tid !in s.calls && used in s.db.rt
    case LogoutOwner(tid) => tid in s.calls && s.calls[tid].Logout?
    case RevokeOwner(tid, user, sid) => tid !in s.calls && Owner(s.db, sid) == Some(user)
    case OthersMembers(tid, user, keep) => tid !in s.calls
    case OthersNext(tid, sid) => tid in s.calls && s.calls[tid].Others? && sid in s.calls[tid].rest
    case DeleteRead(tid) => tid in s.calls && s.calls[tid].Delete? && s.calls[tid].seen.NotRead?
    case DeleteCommit(tid) => tid in s.calls && s.calls[tid].Delete? && s.calls[tid].seen.Seen?
    case ListMembers(tid, user) => tid !in s.calls
    case ListNext(tid, sid) => tid in s.calls && s.calls[tid].List? && sid in s.calls[tid].rest
    case ListSrem(tid) => tid in s.calls && s.calls[tid].ListPurge?
    case AuthVerify(tid, bearer) =>
      && tid !in s.calls
      && Jwt.Verify(c.jwt, s.db.now, bearer).Some?
      && bearer.claims in s.hist.issued
    case AuthOwner(tid) => tid in s.calls && s.calls[tid].Auth?
    case Stop(tid) => tid in s.calls
  }

  function Do(c: Config, s: State, a: Action): State
    requires Enabled(c, s, a)
  {
    match a
    case Tick(t) => s.(db := Advance(s.db, t))
    case CreateStart(tid, sid, user, token) =>
      s.(calls := s.calls[tid := Creating(sid, user, token, s.db.now)],
         hist := Reserve(s.hist.(lives := s.hist.lives[sid := Pending(tid)]), tid, token))
    case CreateCommit(tid, ua, ip) => DoCreateCommit(c, s, tid, ua, ip)
    case IssueJwt(tid, role, jti) =>
      var p := s.calls[tid];
      var claims := Jwt.Issue(c.jwt, s.db.now, p.user, role, p.sid, jti).claims;
      State(s.db, s.calls - {tid}, s.hist.(issued := s.hist.issued + {claims}),
            s.log + [Issued(claims, p.stamp, s.db.now)])
    case RotateTake(tid, used, next) => DoRotateTake(s, tid, used, next)
    case RotateRead(tid) =>
      var p := s.calls[tid];
      var f := HGetAll(s.db, p.sid);
      if f.user.None? || f.created.None? then s.(calls := s.calls - {tid})
      else s.(calls := s.calls[tid := p.(stage := Read(f.user.value, f.created.value))])
    case RotateClock(tid) =>
      var p := s.calls[tid];
      if s.db.now - p.stage.created > c.abs
      then s.(calls := s.calls[tid := Delete(p.sid, p.stage.user, NotRead, ForRotate(p.used))])
      else s.(calls := s.calls[tid := p.(stage := Checked(p.stage.user, p.stage.created, s.db.now))])
    case RotateCommit(tid) => DoRotateCommit(c, s, tid)
    case LogoutTake(tid, used) => DoLogoutTake(s, tid, used)
    case LogoutOwner(tid) =>
      var p := s.calls[tid];
      var owner := Owner(s.db, p.sid);
      if owner.None? then s.(calls := s.calls - {tid})
      else s.(calls := s.calls[tid := Delete(p.sid, owner.value, NotRead, ForLogout(p.used))])
    case RevokeOwner(tid, user, sid) => s.(calls := s.calls[tid := Delete(sid, user, NotRead, ForRevoke)])
    case OthersMembers(tid, user, keep) => s.(calls := s.calls[tid := Others(user, keep, SMembers(s.db, user))])
    case OthersNext(tid, sid) =>
      var p := s.calls[tid];
      var rest := p.rest - {sid};
      if sid == p.keep then s.(calls := s.calls[tid := Others(p.user, p.keep, rest)])
      else s.(calls := s.calls[tid := Delete(sid, p.user, NotRead, ForOthers(p.keep, rest))])
    case DeleteRead(tid) =>
      var p := s.calls[tid];
      s.(calls := s.calls[tid := p.(seen := Seen(HGetAll(s.db, p.sid).rth))])
    case DeleteCommit(tid) => DoDeleteCommit(s, tid)
    case ListMembers(tid, user) => s.(calls := s.calls[tid := List(user, SMembers(s.db, user))])
    case ListNext(tid, sid) =>
      var p := s.calls[tid];
      var rest := p.rest - {sid};
      if sid in s.db.sess then s.(calls := s.calls[tid := List(p.user, rest)])
      else s.(calls := s.calls[tid := ListPurge(p.user, sid, rest)])
    case ListSrem(tid) =>
      var p := s.calls[tid];
      s.(db := SRem(s.db, p.user, p.sid), calls := s.calls[tid := List(p.user, p.rest)])
    case AuthVerify(tid, bearer) => s.(calls := s.calls[tid := Auth(bearer.claims, s.db.now)])
    case AuthOwner(tid) =>
      var p := s.calls[tid];
      var accepted := Owner(s.db, p.claims.sid) == Some(p.claims.sub);
      s.(calls := s.calls - {tid},
         log := if accepted then s.log + [Accepted(p.claims, p.verified, s.db.now)] else s.log)
    case Stop(tid) =>
      var held := InHandOf(s.calls[tid]);
      s.(calls := s.calls - {tid}, log := if held.Some? then s.log + [Dropped(held.value.0, held.value.1)] else s.log)
  }

  /** Records that `e` gives session `e.sid` its current token `e.token`. */
  function Minted(h: History, e: Event): History
    requires Mints(e)
  {
    h.(caps := h.caps[e.sid := AtKey(e.token)], tokens := h.tokens[e.token := Out(e.sid)], last := h.last[e.sid := e])
  }

  /** Records that call `tid` removed the key of `token`, which pointed at `sid`, by GETDEL. */
  function Grabbed(h: History, tid: nat, token: Token, sid: Sid): History {
    h.(caps := h.caps[sid := InHand(tid)], tokens := h.tokens[token := Spent(sid)])
  }

  function Reserve(h: History, tid: nat, token: Token): History {
    h.(tokens := h.tokens[token := Reserved(tid)])
  }

  function DoCreateCommit(c: Config, s: State, tid: nat, ua: string, ip: string): State
    requires tid in s.calls && s.calls[tid].Creating?
  {
    var p := s.calls[tid];
    var e := Created(p.sid, p.user, p.token, p.stamp, s.db.now);
    State(CreateMulti(s.db, c.idle, c.abs, p.sid, p.user, p.stamp, ua, ip, p.token),
          s.calls[tid := Issuing(p.user, p.sid, p.stamp)],
          Minted(s.hist.(lives := s.hist.lives[p.sid := Born(p.user, p.stamp, s.db.now)]), e),
          s.log + [e])
  }

  function DoRotateTake(s: State, tid: nat, used: Token, next: Token): State
    requires used in s.db.rt
  {
    var sid := s.db.rt[used].val;
    State(DelToken(s.db, used), s.calls[tid := Rotate(used, next, sid, Taken)],
          Reserve(Grabbed(s.hist, tid, used, sid), tid, next), s.log + [Took(used, sid)])
  }

  function DoLogoutTake(s: State, tid: nat, used: Token): State
    requires used in s.db.rt
  {
    var sid := s.db.rt[used].val;
    State(DelToken(s.db, used), s.calls[tid := Logout(used, sid)],
          Grabbed(s.hist, tid, used, sid), s.log + [Took(used, sid)])
  }

  function DoRotateCommit(c: Config, s: State, tid: nat): State
    requires tid in s.calls && s.calls[tid].Rotate? && s.calls[tid].stage.Checked?
  {
    var p := s.calls[tid];
    var g := p.stage;
    var e := Rotated(p.sid, g.user, p.used, p.next, g.stamp, s.db.now);
    State(RotateMulti(s.db, c.idle, c.abs, p.sid, g.user, g.stamp, p.next),
          s.calls[tid := Issuing(g.user, p.sid, g.stamp)],
          Minted(s.hist, e), s.log + [e])
  }

  function DoDeleteCommit(s: State, tid: nat): State
    requires tid in s.calls && s.calls[tid].Delete? && s.calls[tid].seen.Seen?
  {
    var p := s.calls[tid];
    State(DeleteMulti(s.db, p.sid, p.user, p.seen.rth),
          if p.job.ForOthers? then s.calls[tid := Others(p.user, p.job.keep, p.job.rest)] else s.calls - {tid},
          s.hist, s.log + [Killed(p.sid)])
  }

  // --- Runs ---

  predicate Run(c: Config, s: State, acts: seq<Action>)
    decreases |acts|
  {
    acts == [] || (Enabled(c, s, acts[0]) && Run(c, Do(c, s, acts[0]), acts[1..]))
  }

  function After(c: Config, s: State, acts: seq<Action>): State
    requires Run(c, s, acts)
    decreases |acts|
  {
    if acts == [] then s else After(c, Do(c, s, acts[0]), acts[1..])
  }

  ghost predicate Reachable(c: Config, s: State) {
    exists now: int, acts: seq<Action> :: Run(c, Start(now), acts) && After(c, Start(now), acts) == s
  }
}
