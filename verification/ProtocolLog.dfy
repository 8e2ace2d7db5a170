/**
 The log of a run: what each event implies about the state it left behind, which
 events can never occur twice, and in what order the tokens of a session follow
 each other.
 */
module ProtocolLog {
  import opened Options
  import opened Redis
  import opened Protocol
  import opened ProtocolInvariant
  import Jwt

  /** The tokens given to session `sid`, oldest first. */
  ghost function Chain(log: seq<Event>, sid: Sid): seq<Token> {
    if log == [] then []
    else
      var e := log[|log| - 1];
      Chain(log[..|log| - 1], sid) + if Mints(e) && e.sid == sid then [e.token] else []
  }

  ghost predicate IsMinted(h: History, t: Token, sid: Sid) {
    t in h.tokens && (h.tokens[t] == Out(sid) || h.tokens[t] == Spent(sid))
  }

  ghost predicate IsSpent(h: History, t: Token, sid: Sid) {
    t in h.tokens && h.tokens[t] == Spent(sid)
  }

  /** What stays true of the state once event `e` has happened. */
  ghost predicate EventOk(c: Config, db: Db, h: History, e: Event) {
    match e
    case Created(sid, user, token, stamp, at) =>
      sid in h.lives && h.lives[sid] == Born(user, stamp, at) && IsMinted(h, token, sid)
    case Rotated(sid, user, used, token, stamp, at) =>
      && IsBorn(h, sid) && h.lives[sid].user == user && stamp - h.lives[sid].created <= c.abs
      && IsMinted(h, token, sid) && IsSpent(h, used, sid)
      && sid in h.last && Mints(h.last[sid]) && h.last[sid].token != used
    case Took(token, sid) => IsBorn(h, sid) && IsSpent(h, token, sid)
    case Killed(sid) => IsBorn(h, sid) && Owner(db, sid).None?
    case Issued(claims, stamp, at) =>
      && claims in h.issued
      && IsBorn(h, claims.sid) && h.lives[claims.sid].user == claims.sub
      && stamp - h.lives[claims.sid].created <= c.abs
      && claims.exp == at + c.jwt.accessTtl
    case Accepted(claims, verified, at) =>
      && claims in h.issued
      && IsBorn(h, claims.sid) && h.lives[claims.sid].user == claims.sub
      && verified <= claims.exp + Jwt.LEEWAY
      && (at < h.lives[claims.sid].since + c.idle || at < h.lives[claims.sid].created + c.abs + 2 * c.idle)
    case Dropped(token, sid) => IsBorn(h, sid) && IsSpent(h, token, sid)
  }

  /** What no earlier event can have said when `e` happens in history `h`. */
  ghost predicate Novel(h: History, e: Event) {
    match e
    case Created(sid, _, token, _, _) => !IsBorn(h, sid) && token in h.tokens && h.tokens[token].Reserved?
    case Rotated(sid, _, used, token, _, _) =>
      && token in h.tokens && h.tokens[token].Reserved?
      && sid in h.last && Mints(h.last[sid]) && h.last[sid].token == used && IsSpent(h, used, sid)
    case Took(token, sid) => token in h.tokens && h.tokens[token] == Out(sid)
    case _ => true
  }

  ghost predicate Distinct(e: Event, f: Event) {
    && (e.Took? && f.Took? ==> e.token != f.token)
    && (Mints(e) && Mints(f) ==> e.token != f.token)
    && (e.Created? && f.Created? ==> e.sid != f.sid)
    && (e.Rotated? && f.Rotated? ==> e.used != f.used)
  }

  ghost predicate HistGrows(h: History, h': History) {
    && h.issued <= h'.issued
    && (forall t, sid | IsMinted(h, t, sid) :: IsMinted(h', t, sid))
    && (forall t, sid | IsSpent(h, t, sid) :: IsSpent(h', t, sid))
    && (forall sid | IsBorn(h, sid) && sid in h.last && Mints(h.last[sid]) ::
          && sid in h'.last && Mints(h'.last[sid])
          && (h'.last[sid] == h.last[sid] ||
              (h'.last[sid].token in h.tokens && h.tokens[h'.last[sid].token].Reserved?)))
  }

  lemma EventStays(c: Config, s: State, s': State, e: Event)
    requires Forward(s, s') && HistGrows(s.hist, s'.hist)
    requires EventOk(c, s.db, s.hist, e)
    ensures EventOk(c, s'.db, s'.hist, e)
  {
  }

  lemma NovelIsDistinct(c: Config, db: Db, h: History, e: Event, f: Event)
    requires EventOk(c, db, h, e) && Novel(h, f)
    ensures Distinct(e, f)
  {
  }

  lemma GrabGrows(h: History, tid: nat, t: Token, sid: Sid, next: Token)
    requires t in h.tokens && h.tokens[t] == Out(sid) && next !in h.tokens
    ensures HistGrows(h, Reserve(Grabbed(h, tid, t, sid), tid, next))
  {
  }

  lemma GrabGrowsAlone(h: History, tid: nat, t: Token, sid: Sid)
    requires t in h.tokens && h.tokens[t] == Out(sid)
    ensures HistGrows(h, Grabbed(h, tid, t, sid))
  {
  }

  lemma MintGrows(h: History, h': History, e: Event)
    requires Mints(e) && e.token in h.tokens && h.tokens[e.token].Reserved?
    requires h'.tokens == h.tokens[e.token := Out(e.sid)] && h'.last == h.last[e.sid := e] && h'.issued == h.issued
    ensures HistGrows(h, h')
  {
  }

  lemma Grows(c: Config, s: State, a: Action)
    requires Sane(c) && Inv(c, s) && Enabled(c, s, a)
    ensures HistGrows(s.hist, Do(c, s, a).hist)
  {
    match a
    case RotateTake(tid, used, next) =>
      assert TokenAt(c, s.db, s.hist, used);
      GrabGrows(s.hist, tid, used, s.db.rt[used].val, next);
    case LogoutTake(tid, used) =>
      assert TokenAt(c, s.db, s.hist, used);
      GrabGrowsAlone(s.hist, tid, used, s.db.rt[used].val);
    case CreateCommit(tid, ua, ip) =>
      var p := s.calls[tid];
      assert CallOk(c, s.db, s.hist, tid, p);
      MintGrows(s.hist, DoCreateCommit(c, s, tid, ua, ip).hist, Created(p.sid, p.user, p.token, p.stamp, s.db.now));
    case RotateCommit(tid) =>
      var p := s.calls[tid];
      assert CallOk(c, s.db, s.hist, tid, p);
      MintGrows(s.hist, DoRotateCommit(c, s, tid).hist,
                Rotated(p.sid, p.stage.user, p.used, p.next, p.stage.stamp, s.db.now));
    case CreateStart(_, _, _, _) =>
    case _ => assert Do(c, s, a).hist.(issued := s.hist.issued) == s.hist;
  }

  ghost predicate LogsWell(c: Config, s: State, s': State, e: Event) {
    s'.log == s.log + [e] && Novel(s.hist, e) && EventOk(c, s'.db, s'.hist, e)
  }

  lemma TakeLogs(c: Config, s: State, a: Action)
    requires Inv(c, s) && Enabled(c, s, a) && (a.RotateTake? || a.LogoutTake?)
    ensures LogsWell(c, s, Do(c, s, a), Took(a.used, s.db.rt[a.used].val))
  {
    assert TokenAt(c, s.db, s.hist, a.used);
  }

  lemma CreateLogs(c: Config, s: State, tid: nat, ua: string, ip: string)
    requires Inv(c, s) && Enabled(c, s, CreateCommit(tid, ua, ip))
    ensures var p := s.calls[tid];
            LogsWell(c, s, DoCreateCommit(c, s, tid, ua, ip), Created(p.sid, p.user, p.token, p.stamp, s.db.now))
  {
    assert CallOk(c, s.db, s.hist, tid, s.calls[tid]);
  }

  lemma RotateLogs(c: Config, s: State, tid: nat)
    requires Inv(c, s) && Enabled(c, s, RotateCommit(tid))
    ensures var p := s.calls[tid];
            LogsWell(c, s, DoRotateCommit(c, s, tid),
                     Rotated(p.sid, p.stage.user, p.used, p.next, p.stage.stamp, s.db.now))
  {
    assert CallOk(c, s.db, s.hist, tid, s.calls[tid]);
  }

  lemma DeleteLogs(c: Config, s: State, tid: nat)
    requires Inv(c, s) && Enabled(c, s, DeleteCommit(tid))
    ensures LogsWell(c, s, DoDeleteCommit(s, tid), Killed(s.calls[tid].sid))
  {
    var p := s.calls[tid];
    assert CallOk(c, s.db, s.hist, tid, p);
    DeleteStaysDead(s.db, s.hist, p.sid, p.user, p.seen.rth);
  }

  lemma IssueLogs(c: Config, s: State, a: Action)
    requires Inv(c, s) && Enabled(c, s, a) && a.IssueJwt?
    ensures LogsWell(c, s, Do(c, s, a), Do(c, s, a).log[|s.log|])
  {
    assert CallOk(c, s.db, s.hist, a.tid, s.calls[a.tid]);
  }

  lemma AuthLogs(c: Config, s: State, tid: nat)
    requires Inv(c, s) && Enabled(c, s, AuthOwner(tid))
    ensures var s' := Do(c, s, AuthOwner(tid));
            s'.log == s.log || LogsWell(c, s, s', Accepted(s.calls[tid].claims, s.calls[tid].verified, s.db.now))
  {
    var p := s.calls[tid];
    assert CallOk(c, s.db, s.hist, tid, p);
    assert p.claims.sid in s.db.sess ==> SessAt(c, s.db, s.hist, p.claims.sid);
  }

  lemma StopLogs(c: Config, s: State, tid: nat)
    requires Inv(c, s) && Enabled(c, s, Stop(tid))
    ensures var s' := Do(c, s, Stop(tid)); var held := InHandOf(s.calls[tid]);
            if held.Some? then LogsWell(c, s, s', Dropped(held.value.0, held.value.1)) else s'.log == s.log
  {
    assert CallOk(c, s.db, s.hist, tid, s.calls[tid]);
  }

  /** An action writes at most one event, and that event is true and new. */
  lemma NewEventOk(c: Config, s: State, a: Action)
    requires Inv(c, s) && Enabled(c, s, a)
    ensures var s' := Do(c, s, a); s'.log == s.log || (exists e :: LogsWell(c, s, s', e))
  {
    match a
    case RotateTake(_, _, _) => TakeLogs(c, s, a);
    case LogoutTake(_, _) => TakeLogs(c, s, a);
    case CreateCommit(tid, ua, ip) => CreateLogs(c, s, tid, ua, ip);
    case RotateCommit(tid) => RotateLogs(c, s, tid);
    case DeleteCommit(tid) => DeleteLogs(c, s, tid);
    case IssueJwt(_, _, _) => IssueLogs(c, s, a);
    case AuthOwner(tid) => AuthLogs(c, s, tid);
    case Stop(tid) => StopLogs(c, s, tid);
    case _ =>
  }

  // --- The whole log ---

  /** Event `e` is a rotation that consumes the newest token of its session. */
  ghost predicate Follows(log: seq<Event>, e: Event) {
    e.Rotated? ==> Chain(log, e.sid) != [] && Chain(log, e.sid)[|Chain(log, e.sid)| - 1] == e.used
  }

  /**
   The token `t` of session `sid`, once taken, is still in hand, was replaced, was lost with its call, or its session
   is dead.
   */
  ghost predicate Settled(s: State, t: Token, sid: Sid) {
    || (exists tid :: tid in s.calls && InHandOf(s.calls[tid]) == Some((t, sid)))
    || (exists i :: 0 <= i < |s.log| && s.log[i].Rotated? && s.log[i].used == t && s.log[i].sid == sid)
    || Dropped(t, sid) in s.log
    || Owner(s.db, sid).None?
  }

  ghost predicate Facts(c: Config, s: State) {
    && (forall i | 0 <= i < |s.log| :: EventOk(c, s.db, s.hist, s.log[i]))
    && (forall i, j | 0 <= i < j < |s.log| :: Distinct(s.log[i], s.log[j]))
  }

  ghost predicate ChainsOk(s: State) {
    && (forall i | 0 <= i < |s.log| :: Follows(s.log[..i], s.log[i]))
    && (forall sid | IsBorn(s.hist, sid) :: TipOk(s, sid))
  }

  ghost predicate TipOk(s: State, sid: Sid) {
    && sid in s.hist.last && Mints(s.hist.last[sid]) && s.hist.last[sid] in s.log
    && Chain(s.log, sid) != []
    && Chain(s.log, sid)[|Chain(s.log, sid)| - 1] == s.hist.last[sid].token
  }

  ghost predicate IssuesOk(s: State) {
    forall claims | claims in s.hist.issued ::
      exists i :: 0 <= i < |s.log| && s.log[i].Issued? && s.log[i].claims == claims
  }

  ghost predicate OutcomesOk(s: State) {
    forall i | 0 <= i < |s.log| && s.log[i].Took? :: Settled(s, s.log[i].token, s.log[i].sid)
  }

  ghost predicate LogOk(c: Config, s: State) {
    Facts(c, s) && ChainsOk(s) && IssuesOk(s) && OutcomesOk(s)
  }

  lemma KeepsFacts(c: Config, s: State, a: Action)
    requires Sane(c) && Inv(c, s) && Enabled(c, s, a) && Facts(c, s)
    ensures Facts(c, Do(c, s, a))
  {
    var s' := Do(c, s, a);
    Keeps(c, s, a);
    Grows(c, s, a);
    NewEventOk(c, s, a);
    forall i | 0 <= i < |s.log| ensures EventOk(c, s'.db, s'.hist, s.log[i]) {
      EventStays(c, s, s', s.log[i]);
    }
    if s'.log != s.log {
      var e :| LogsWell(c, s, s', e);
      forall i | 0 <= i < |s.log| ensures Distinct(s.log[i], e) {
        NovelIsDistinct(c, s.db, s.hist, s.log[i], e);
      }
    }
  }

  /** The history knows of exactly the mints in the log. */
  lemma MintsTracked(c: Config, s: State, a: Action)
    requires Inv(c, s) && Enabled(c, s, a)
    ensures var s' := Do(c, s, a);
            if |s'.log| > |s.log| && Mints(s'.log[|s.log|])
            then s'.hist.last == s.hist.last[s'.log[|s.log|].sid := s'.log[|s.log|]]
            else s'.hist.last == s.hist.last
  {
    if !a.CreateCommit? && !a.RotateCommit? {
      OthersMintNothing(c, s, a);
    }
  }

  lemma OthersMintNothing(c: Config, s: State, a: Action)
    requires Enabled(c, s, a) && !a.CreateCommit? && !a.RotateCommit?
    ensures var s' := Do(c, s, a);
            s'.hist.last == s.hist.last && (|s'.log| > |s.log| ==> !Mints(s'.log[|s.log|]))
  {
  }

  lemma BirthsTracked(c: Config, s: State, a: Action)
    requires Inv(c, s) && Enabled(c, s, a)
    ensures var s' := Do(c, s, a);
            forall sid | IsBorn(s'.hist, sid) && !IsBorn(s.hist, sid) ::
              |s'.log| > |s.log| && Mints(s'.log[|s.log|]) && s'.log[|s.log|].sid == sid
  {
  }

  lemma ChainAppend(log: seq<Event>, e: Event, sid: Sid)
    ensures Chain(log + [e], sid) == Chain(log, sid) + if Mints(e) && e.sid == sid then [e.token] else []
  {
    assert (log + [e])[..|log|] == log;
  }

  lemma TipMoves(s: State, s': State, e: Event, sid: Sid)
    requires s'.log == s.log + [e]
    requires if Mints(e) && e.sid == sid then sid in s'.hist.last && s'.hist.last[sid] == e
             else TipOk(s, sid) && sid in s'.hist.last && s'.hist.last[sid] == s.hist.last[sid]
    ensures TipOk(s', sid)
  {
    ChainAppend(s.log, e, sid);
    assert e in s'.log;
  }

  lemma KeepsTips(c: Config, s: State, a: Action)
    requires Sane(c) && Inv(c, s) && Enabled(c, s, a) && ChainsOk(s)
    ensures forall sid | IsBorn(Do(c, s, a).hist, sid) :: TipOk(Do(c, s, a), sid)
  {
    var s' := Do(c, s, a);
    LogExtends(c, s, a);
    NewEventOk(c, s, a);
    MintsTracked(c, s, a);
    BirthsTracked(c, s, a);
    forall sid | IsBorn(s'.hist, sid) ensures TipOk(s', sid) {
      if s'.log != s.log {
        var e := s'.log[|s.log|];
        assert s'.log == s.log + [e];
        TipMoves(s, s', e, sid);
      } else {
        assert TipOk(s, sid);
      }
    }
  }

  lemma KeepsChains(c: Config, s: State, a: Action)
    requires Sane(c) && Inv(c, s) && Enabled(c, s, a) && ChainsOk(s)
    ensures ChainsOk(Do(c, s, a))
  {
    var s' := Do(c, s, a);
    NewEventOk(c, s, a);
    LogExtends(c, s, a);
    KeepsTips(c, s, a);
    forall i | 0 <= i < |s'.log| ensures Follows(s'.log[..i], s'.log[i]) {
      if i < |s.log| {
        assert s'.log[..i] == s.log[..i] && s'.log[i] == s.log[i] && Follows(s.log[..i], s.log[i]);
      } else {
        var e := s'.log[i];
        assert s'.log == s.log + [e] && s'.log[..i] == s.log;
        if e.Rotated? {
          RotatedWasBorn(c, s, a, e);
          assert TipOk(s, e.sid);
        }
      }
    }
  }

  lemma RotatedWasBorn(c: Config, s: State, a: Action, e: Event)
    requires Inv(c, s) && Enabled(c, s, a) && e.Rotated? && Do(c, s, a).log == s.log + [e]
    ensures IsBorn(s.hist, e.sid) && e.sid in s.hist.last && s.hist.last[e.sid].token == e.used
  {
    assert e == Do(c, s, a).log[|s.log|];
    assert a.RotateCommit?;
    assert CallOk(c, s.db, s.hist, a.tid, s.calls[a.tid]);
  }

  lemma KeepsIssues(c: Config, s: State, a: Action)
    requires Enabled(c, s, a) && IssuesOk(s)
    ensures IssuesOk(Do(c, s, a))
  {
    var s' := Do(c, s, a);
    assert |s.log| <= |s'.log| && s'.log[..|s.log|] == s.log;
    forall claims | claims in s'.hist.issued
      ensures exists i :: 0 <= i < |s'.log| && s'.log[i].Issued? && s'.log[i].claims == claims
    {
      if claims in s.hist.issued {
        var i :| 0 <= i < |s.log| && s.log[i].Issued? && s.log[i].claims == claims;
        assert s'.log[i] == s.log[i];
      } else {
        assert a.IssueJwt? && s'.log[|s.log|].Issued? && s'.log[|s.log|].claims == claims;
      }
    }
  }

  lemma LogExtends(c: Config, s: State, a: Action)
    requires Enabled(c, s, a)
    ensures |s.log| <= |Do(c, s, a).log| && Do(c, s, a).log[..|s.log|] == s.log
  {
  }

  /** The call that holds a token hands it on, replaces it, kills its session, or is seen to die. */
  lemma HolderMoves(c: Config, s: State, a: Action, t: Token, sid: Sid)
    requires Inv(c, s) && Enabled(c, s, a) && !a.Tick? && a.tid in s.calls && InHandOf(s.calls[a.tid]) == Some((t, sid))
    ensures Settled(Do(c, s, a), t, sid)
  {
    var s' := Do(c, s, a);
    var p := s.calls[a.tid];
    assert CallOk(c, s.db, s.hist, a.tid, p);
    match a
    case RotateRead(tid) =>
      assert sid in s.db.sess ==> SessAt(c, s.db, s.hist, sid);
      assert tid in s'.calls ==> InHandOf(s'.calls[tid]) == Some((t, sid));
    case RotateClock(tid) => assert tid in s'.calls && InHandOf(s'.calls[tid]) == Some((t, sid));
    case RotateCommit(tid) =>
      assert s'.log[|s.log|].Rotated? && s'.log[|s.log|].used == t && s'.log[|s.log|].sid == sid;
    case LogoutOwner(tid) => assert tid in s'.calls ==> InHandOf(s'.calls[tid]) == Some((t, sid));
    case DeleteRead(tid) => assert tid in s'.calls && InHandOf(s'.calls[tid]) == Some((t, sid));
    case DeleteCommit(tid) => DeleteStaysDead(s.db, s.hist, p.sid, p.user, p.seen.rth);
    case Stop(tid) => assert s'.log[|s.log|] == Dropped(t, sid);
    case _ =>
  }

  lemma OtherCallsStay(c: Config, s: State, a: Action, tid: nat)
    requires Enabled(c, s, a) && tid in s.calls && (a.Tick? || a.tid != tid)
    ensures tid in Do(c, s, a).calls && Do(c, s, a).calls[tid] == s.calls[tid]
  {
  }

  lemma KeepsSettled(c: Config, s: State, a: Action, t: Token, sid: Sid)
    requires Sane(c) && Inv(c, s) && Enabled(c, s, a) && IsBorn(s.hist, sid) && Settled(s, t, sid)
    ensures Settled(Do(c, s, a), t, sid)
  {
    var s' := Do(c, s, a);
    LogExtends(c, s, a);
    Keeps(c, s, a);
    if Owner(s.db, sid).None? {
    } else if Dropped(t, sid) in s.log {
      assert Dropped(t, sid) in s'.log[..|s.log|];
    } else if i :| 0 <= i < |s.log| && s.log[i].Rotated? && s.log[i].used == t && s.log[i].sid == sid {
      assert s'.log[i] == s.log[i];
    } else {
      var tid :| tid in s.calls && InHandOf(s.calls[tid]) == Some((t, sid));
      if !a.Tick? && a.tid == tid {
        HolderMoves(c, s, a, t, sid);
      } else {
        OtherCallsStay(c, s, a, tid);
      }
    }
  }

  lemma KeepsOutcomes(c: Config, s: State, a: Action)
    requires Sane(c) && Inv(c, s) && Enabled(c, s, a) && Facts(c, s) && OutcomesOk(s)
    ensures OutcomesOk(Do(c, s, a))
  {
    var s' := Do(c, s, a);
    LogExtends(c, s, a);
    NewEventOk(c, s, a);
    forall i | 0 <= i < |s'.log| && s'.log[i].Took? ensures Settled(s', s'.log[i].token, s'.log[i].sid) {
      if i < |s.log| {
        assert s'.log[i] == s.log[i] && EventOk(c, s.db, s.hist, s.log[i]);
        KeepsSettled(c, s, a, s.log[i].token, s.log[i].sid);
      } else {
        assert a.RotateTake? || a.LogoutTake?;
        assert a.tid in s'.calls && InHandOf(s'.calls[a.tid]) == Some((s'.log[i].token, s'.log[i].sid));
      }
    }
  }

  lemma KeepsLog(c: Config, s: State, a: Action)
    requires Sane(c) && Inv(c, s) && Enabled(c, s, a) && LogOk(c, s)
    ensures LogOk(c, Do(c, s, a))
  {
    KeepsFacts(c, s, a);
    KeepsChains(c, s, a);
    KeepsIssues(c, s, a);
    KeepsOutcomes(c, s, a);
  }
}
