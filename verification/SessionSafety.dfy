/**
 The promises of the session store, proved for every interleaving of every number
 of calls, with calls dying at any point.
 */
module SessionSafety {
  import opened Options
  import opened Collections
  import opened Redis
  import opened Protocol
  import opened ProtocolInvariant
  import opened ProtocolLog
  import Jwt

  // --- From one action to whole runs ---

  ghost predicate Good(c: Config, s: State) {
    Sane(c) && Inv(c, s) && LogOk(c, s)
  }

  lemma {:induction false} RunKeeps(c: Config, s: State, acts: seq<Action>)
    requires Good(c, s) && Run(c, s, acts)
    ensures var t := After(c, s, acts);
            && Good(c, t) && Forward(s, t)
            && |s.log| <= |t.log| && t.log[..|s.log|] == s.log
    decreases |acts|
  {
    if acts != [] {
      var s1 := Do(c, s, acts[0]);
      Keeps(c, s, acts[0]);
      KeepsLog(c, s, acts[0]);
      LogExtends(c, s, acts[0]);
      RunKeeps(c, s1, acts[1..]);
      var t := After(c, s1, acts[1..]);
      assert t.log[..|s.log|] == t.log[..|s1.log|][..|s.log|];
    }
  }

  lemma ReachableGood(c: Config, s: State)
    requires Sane(c) && Reachable(c, s)
    ensures Good(c, s)
  {
    var now: int, acts: seq<Action> :| Run(c, Start(now), acts) && After(c, Start(now), acts) == s;
    RunKeeps(c, Start(now), acts);
  }

  lemma ReachableInv(c: Config, s: State)
    requires Sane(c) && Reachable(c, s)
    ensures Inv(c, s)
  {
    ReachableGood(c, s);
  }

  lemma {:induction false} RunOneMore(c: Config, s: State, acts: seq<Action>, a: Action)
    requires Run(c, s, acts) && Enabled(c, After(c, s, acts), a)
    ensures Run(c, s, acts + [a]) && After(c, s, acts + [a]) == Do(c, After(c, s, acts), a)
    decreases |acts|
  {
    if acts == [] {
      assert [] + [a] == [a] && [a][1..] == [];
    } else {
      RunOneMore(c, Do(c, s, acts[0]), acts[1..], a);
      assert (acts + [a])[0] == acts[0] && (acts + [a])[1..] == acts[1..] + [a];
    }
  }

  lemma Reaches(c: Config, s: State, a: Action) returns (s': State)
    requires Reachable(c, s) && Enabled(c, s, a)
    ensures s' == Do(c, s, a) && Reachable(c, s')
  {
    var now: int, acts: seq<Action> :| Run(c, Start(now), acts) && After(c, Start(now), acts) == s;
    RunOneMore(c, Start(now), acts, a);
    s' := Do(c, s, a);
  }

  /** The keys after one `create` at 0: session 0 of user 0, with token 0. */
  function OneSessionKeys(c: Config): Db {
    Db(0,
       map[Sid(0) := Entry(Fields(Some(UserId(0)), Some(0), Some(0), Some(""), Some(""), Some(Token(0))),
                        Some(c.idle))],
       map[Token(0) := Entry(Sid(0), Some(c.idle))],
       map[UserId(0) := Entry({Sid(0)}, Some(c.abs))])
  }

  ghost predicate OneSession(c: Config, s: State) {
    && Reachable(c, s)
    && s.db == OneSessionKeys(c)
    && s.calls == map[0 := Issuing(UserId(0), Sid(0), 0)]
    && s.hist.tokens == map[Token(0) := Out(Sid(0))]
    && s.log == [Created(Sid(0), UserId(0), Token(0), 0, 0)]
  }

  lemma FirstCreate(c: Config)
    ensures CreateMulti(Start(0).db, c.idle, c.abs, Sid(0), UserId(0), 0, "", "", Token(0)) == OneSessionKeys(c)
  {
    CreateMultiEffect(Start(0).db, c.idle, c.abs, Sid(0), UserId(0), 0, "", "", Token(0));
    assert {} + {Sid(0)} == {Sid(0)};
  }

  lemma OneCreate(c: Config) returns (s: State)
    requires Sane(c)
    ensures OneSession(c, s)
  {
    s := Start(0);
    assert Run(c, Start(0), []) && After(c, Start(0), []) == s;
    s := Reaches(c, s, CreateStart(0, Sid(0), UserId(0), Token(0)));
    assert s.db == Start(0).db && s.calls == map[0 := Creating(Sid(0), UserId(0), Token(0), 0)];
    assert s.hist.tokens == map[Token(0) := Reserved(0)] && s.log == [];
    s := OneCommit(c, s);
  }

  lemma OneCommit(c: Config, s: State) returns (t: State)
    requires Reachable(c, s) && s.db == Start(0).db && s.calls == map[0 := Creating(Sid(0), UserId(0), Token(0), 0)]
    requires s.hist.tokens == map[Token(0) := Reserved(0)] && s.log == []
    ensures OneSession(c, t)
  {
    FirstCreate(c);
    t := Reaches(c, s, CreateCommit(0, "", ""));
  }

  /** Session `sid` was created, by `user`, at the clock reading `stamp`, in the MULTI run at `at`. */
  ghost predicate WasCreated(log: seq<Event>, sid: Sid, user: UserId, stamp: int, at: int) {
    exists i :: 0 <= i < |log| && log[i].Created? && log[i].sid == sid && log[i].user == user
                && log[i].stamp == stamp && log[i].at == at
  }

  lemma CreatedIsBorn(c: Config, s: State, sid: Sid, user: UserId, stamp: int, at: int)
    requires Good(c, s) && WasCreated(s.log, sid, user, stamp, at)
    ensures sid in s.hist.lives && s.hist.lives[sid] == Born(user, stamp, at)
  {
    var i :| 0 <= i < |s.log| && s.log[i].Created? && s.log[i].sid == sid && s.log[i].user == user
              && s.log[i].stamp == stamp && s.log[i].at == at;
    assert EventOk(c, s.db, s.hist, s.log[i]);
  }

  // --- Revocation ---

  /**
   A session that was created and has no owner any more (deleted, or expired) never has one again, and
   no request is accepted for it again.
   */
  lemma {:induction false} RevocationIsPermanent(c: Config, s: State, acts: seq<Action>, sid: Sid, user: UserId,
                                                 stamp: int, at: int)
    requires Sane(c) && Reachable(c, s) && Run(c, s, acts)
    requires WasCreated(s.log, sid, user, stamp, at) && Owner(s.db, sid).None?
    ensures var t := After(c, s, acts);
            && Owner(t.db, sid).None?
            && forall i | |s.log| <= i < |t.log| && t.log[i].Accepted? :: t.log[i].claims.sid != sid
  {
    ReachableGood(c, s);
    CreatedIsBorn(c, s, sid, user, stamp, at);
    DeadStaysRefused(c, s, acts, sid);
  }

  /** So the request guard rejects every access token of a dead session, now and in every later state. */
  lemma RevokedTokensRejected(c: Config, s: State, acts: seq<Action>, sid: Sid, user: UserId, stamp: int, at: int,
                              bearer: Jwt.Jwt, now: int, users: map<UserId, Jwt.Role>)
    requires Sane(c) && Reachable(c, s) && Run(c, s, acts) && bearer.claims.sid == sid
    requires WasCreated(s.log, sid, user, stamp, at) && Owner(s.db, sid).None?
    ensures var t := After(c, s, acts); Jwt.FromRequest(c.jwt, now, Some(bearer), t.db, users).None?
  {
    RevocationIsPermanent(c, s, acts, sid, user, stamp, at);
  }

  lemma DeadRefusedOnce(c: Config, s: State, a: Action, sid: Sid)
    requires Inv(c, s) && Enabled(c, s, a) && Owner(s.db, sid).None?
    ensures forall i | |s.log| <= i < |Do(c, s, a).log| && Do(c, s, a).log[i].Accepted? ::
            Do(c, s, a).log[i].claims.sid != sid
  {
    NewEventOk(c, s, a);
    AcceptNeedsOwner(c, s, a);
  }

  lemma {:induction false} DeadStaysRefused(c: Config, s: State, acts: seq<Action>, sid: Sid)
    requires Good(c, s) && Run(c, s, acts) && IsBorn(s.hist, sid) && Owner(s.db, sid).None?
    ensures var t := After(c, s, acts);
            && Owner(t.db, sid).None? && |s.log| <= |t.log|
            && forall i | |s.log| <= i < |t.log| && t.log[i].Accepted? :: t.log[i].claims.sid != sid
    decreases |acts|
  {
    RunKeeps(c, s, acts);
    if acts != [] {
      var s1 := Do(c, s, acts[0]);
      Keeps(c, s, acts[0]);
      KeepsLog(c, s, acts[0]);
      LogExtends(c, s, acts[0]);
      RunKeeps(c, s1, acts[1..]);
      DeadStaysRefused(c, s1, acts[1..], sid);
      var t := After(c, s1, acts[1..]);
      forall i | |s.log| <= i < |t.log| && t.log[i].Accepted? ensures t.log[i].claims.sid != sid {
        if i < |s1.log| {
          assert t.log[i] == s1.log[i];
          DeadRefusedOnce(c, s, acts[0], sid);
        }
      }
    }
  }

  lemma AcceptNeedsOwner(c: Config, s: State, a: Action)
    requires Enabled(c, s, a)
    ensures var s' := Do(c, s, a);
            |s'.log| > |s.log| && s'.log[|s.log|].Accepted? ==>
              Owner(s.db, s'.log[|s.log|].claims.sid) == Some(s'.log[|s.log|].claims.sub)
  {
  }

  /**
   After a `delete` has run its MULTI block, its session has no owner: logout and revocation take effect at that step.
   */
  lemma KilledIsDead(c: Config, s: State, i: nat)
    requires Sane(c) && Reachable(c, s) && i < |s.log| && s.log[i].Killed?
    ensures Owner(s.db, s.log[i].sid).None?
  {
    ReachableGood(c, s);
    assert EventOk(c, s.db, s.hist, s.log[i]);
  }

  ghost function Rotations(log: seq<Event>, sid: Sid): nat {
    if log == [] then 0
    else Rotations(log[..|log| - 1], sid) + if log[|log| - 1].Rotated? && log[|log| - 1].sid == sid then 1 else 0
  }

  /** The rotations of `sid` that already hold the answer of their HGETALL. */
  ghost function PastRead(calls: map<nat, Pc>, sid: Sid): set<nat> {
    set tid | tid in calls && calls[tid].Rotate? && calls[tid].sid == sid && !calls[tid].stage.Taken?
  }

  lemma AtMostOnePastRead(c: Config, s: State, sid: Sid)
    requires Inv(c, s)
    ensures |PastRead(s.calls, sid)| <= 1
  {
    var p := PastRead(s.calls, sid);
    if p != {} {
      var tid :| tid in p;
      assert CallOk(c, s.db, s.hist, tid, s.calls[tid]);
      forall other | other in p ensures other == tid { assert CallOk(c, s.db, s.hist, other, s.calls[other]); }
      assert p == {tid};
    }
  }

  /** Once the session is dead, no call gets past its HGETALL any more. */
  lemma PastReadShrinks(c: Config, s: State, a: Action, sid: Sid)
    requires Inv(c, s) && Enabled(c, s, a) && Owner(s.db, sid).None?
    ensures var p, p' := PastRead(s.calls, sid), PastRead(Do(c, s, a).calls, sid);
            && p' <= p
            && (a.RotateCommit? && s.calls[a.tid].sid == sid ==> a.tid in p && a.tid !in p')
  {
    forall tid | tid in PastRead(Do(c, s, a).calls, sid) ensures tid in PastRead(s.calls, sid) {
      if !a.Tick? && a.tid == tid {
        assert a.RotateRead? || a.RotateClock?;
      }
    }
  }

  lemma RotationsGrow(c: Config, s: State, a: Action, sid: Sid)
    requires Inv(c, s) && Enabled(c, s, a)
    ensures Rotations(Do(c, s, a).log, sid)
         == Rotations(s.log, sid) + if a.RotateCommit? && s.calls[a.tid].sid == sid then 1 else 0
  {
    var s' := Do(c, s, a);
    NewEventOk(c, s, a);
    LogExtends(c, s, a);
    if s'.log != s.log {
      assert s'.log[..|s'.log| - 1] == s.log;
    }
  }

  lemma RotationsStep(c: Config, s: State, a: Action, sid: Sid)
    requires Inv(c, s) && Enabled(c, s, a) && Owner(s.db, sid).None?
    ensures Rotations(Do(c, s, a).log, sid) + |PastRead(Do(c, s, a).calls, sid)|
         <= Rotations(s.log, sid) + |PastRead(s.calls, sid)|
  {
    var p, p' := PastRead(s.calls, sid), PastRead(Do(c, s, a).calls, sid);
    PastReadShrinks(c, s, a, sid);
    RotationsGrow(c, s, a, sid);
    if a.RotateCommit? && s.calls[a.tid].sid == sid {
      SubsetSize(p', p - {a.tid});
    } else {
      SubsetSize(p', p);
    }
  }

  /**
   After the death of a session, the only rotation that can still report success is one whose HGETALL
   came before the death, and there is at most one of those. (Its answer is useless: see
   RevocationIsPermanent.) A rotation that takes a token of the session later is always refused.
   */
  lemma {:induction false} LateRotations(c: Config, s: State, acts: seq<Action>, sid: Sid, user: UserId, stamp: int,
                                         at: int)
    requires Sane(c) && Reachable(c, s) && Run(c, s, acts)
    requires WasCreated(s.log, sid, user, stamp, at) && Owner(s.db, sid).None?
    ensures Rotations(After(c, s, acts).log, sid) <= Rotations(s.log, sid) + |PastRead(s.calls, sid)|
    ensures |PastRead(s.calls, sid)| <= 1
    ensures var t := After(c, s, acts);
            forall i | |s.log| <= i < |t.log| && t.log[i].Rotated? && t.log[i].sid == sid ::
                t.log[i].used in UsedPast(s.calls, sid)
  {
    ReachableGood(c, s);
    CreatedIsBorn(c, s, sid, user, stamp, at);
    AtMostOnePastRead(c, s, sid);
    LateRotationsFrom(c, s, acts, sid);
    LateUses(c, s, acts, sid);
  }

  /** The tokens that those rotations consume. */
  ghost function UsedPast(calls: map<nat, Pc>, sid: Sid): set<Token> {
    set tid | tid in PastRead(calls, sid) :: calls[tid].used
  }

  lemma UsedShrinks(c: Config, s: State, a: Action, sid: Sid)
    requires Inv(c, s) && Enabled(c, s, a) && Owner(s.db, sid).None?
    ensures UsedPast(Do(c, s, a).calls, sid) <= UsedPast(s.calls, sid)
  {
    PastReadShrinks(c, s, a, sid);
    forall tid | tid in PastRead(Do(c, s, a).calls, sid) ensures Do(c, s, a).calls[tid].used in UsedPast(s.calls, sid) {
      if a.Tick? || a.tid != tid {
        OtherCallsStay(c, s, a, tid);
      } else {
        assert a.RotateClock?;
      }
      assert Do(c, s, a).calls[tid].used == s.calls[tid].used;
    }
  }

  lemma LateUse(c: Config, s: State, a: Action, sid: Sid)
    requires Inv(c, s) && Enabled(c, s, a)
    ensures var s' := Do(c, s, a);
            forall i | |s.log| <= i < |s'.log| && s'.log[i].Rotated? && s'.log[i].sid == sid ::
                s'.log[i].used in UsedPast(s.calls, sid)
  {
    NewEventOk(c, s, a);
    if a.RotateCommit? && s.calls[a.tid].sid == sid {
      assert a.tid in PastRead(s.calls, sid);
    }
  }

  lemma {:induction false} LateUses(c: Config, s: State, acts: seq<Action>, sid: Sid)
    requires Good(c, s) && Run(c, s, acts) && IsBorn(s.hist, sid) && Owner(s.db, sid).None?
    ensures var t := After(c, s, acts);
            forall i | |s.log| <= i < |t.log| && t.log[i].Rotated? && t.log[i].sid == sid ::
                t.log[i].used in UsedPast(s.calls, sid)
    decreases |acts|
  {
    if acts != [] {
      var s1 := Do(c, s, acts[0]);
      Keeps(c, s, acts[0]);
      KeepsLog(c, s, acts[0]);
      LogExtends(c, s, acts[0]);
      RunKeeps(c, s1, acts[1..]);
      UsedShrinks(c, s, acts[0], sid);
      LateUse(c, s, acts[0], sid);
      LateUses(c, s1, acts[1..], sid);
      var t := After(c, s1, acts[1..]);
      forall i | |s.log| <= i < |t.log| && t.log[i].Rotated? && t.log[i].sid == sid
        ensures t.log[i].used in UsedPast(s.calls, sid)
      {
        assert i < |s1.log| ==> t.log[i] == t.log[..|s1.log|][i];
      }
    }
  }

  lemma {:induction false} LateRotationsFrom(c: Config, s: State, acts: seq<Action>, sid: Sid)
    requires Good(c, s) && Run(c, s, acts) && IsBorn(s.hist, sid) && Owner(s.db, sid).None?
    ensures Rotations(After(c, s, acts).log, sid) + |PastRead(After(c, s, acts).calls, sid)|
         <= Rotations(s.log, sid) + |PastRead(s.calls, sid)|
    decreases |acts|
  {
    if acts != [] {
      Keeps(c, s, acts[0]);
      KeepsLog(c, s, acts[0]);
      RotationsStep(c, s, acts[0], sid);
      LateRotationsFrom(c, Do(c, s, acts[0]), acts[1..], sid);
    }
  }

  // --- The refresh capability ---

  ghost function KeysTo(db: Db, sid: Sid): set<Token> {
    set t | t in db.rt && db.rt[t].val == sid
  }

  ghost function HoldersOf(calls: map<nat, Pc>, sid: Sid): set<nat> {
    set tid | tid in calls && InHandOf(calls[tid]).Some? && InHandOf(calls[tid]).value.1 == sid
  }

  /** For each session, the token keys that point at it and the calls that took one add up to at most one. */
  lemma CapabilityConserved(c: Config, s: State, sid: Sid)
    requires Sane(c) && Reachable(c, s)
    ensures |KeysTo(s.db, sid)| + |HoldersOf(s.calls, sid)| <= 1
  {
    ReachableInv(c, s);
    var keys, holders := KeysTo(s.db, sid), HoldersOf(s.calls, sid);
    if t :| t in keys {
      assert TokenAt(c, s.db, s.hist, t);
      forall t' | t' in keys ensures t' == t { assert TokenAt(c, s.db, s.hist, t'); }
      forall tid | tid in s.calls ensures tid !in holders { assert CallOk(c, s.db, s.hist, tid, s.calls[tid]); }
      assert keys == {t} && holders == {};
    } else if tid :| tid in holders {
      assert CallOk(c, s.db, s.hist, tid, s.calls[tid]);
      forall other | other in holders ensures other == tid { assert CallOk(c, s.db, s.hist, other, s.calls[other]); }
      assert keys == {} && holders == {tid};
    }
  }

  /** A token key and the hash of its session agree on the current token, and expire together. */
  lemma PointerAgreement(c: Config, s: State, t: Token)
    requires Sane(c) && Reachable(c, s) && t in s.db.rt && s.db.rt[t].val in s.db.sess
    ensures s.db.sess[s.db.rt[t].val].val.rth == Some(t)
    ensures s.db.sess[s.db.rt[t].val].expiry == s.db.rt[t].expiry
  {
    ReachableInv(c, s);
    assert TokenAt(c, s.db, s.hist, t) && SessAt(c, s.db, s.hist, s.db.rt[t].val);
  }

  lemma LastUnlessRotated(c: Config, s: State, a: Action, sid: Sid)
    requires Sane(c) && Inv(c, s) && Enabled(c, s, a) && IsBorn(s.hist, sid)
    ensures sid in s.hist.last && sid in Do(c, s, a).hist.last
    ensures Do(c, s, a).hist.last[sid] == s.hist.last[sid] || (a.RotateCommit? && s.calls[a.tid].sid == sid)
  {
    assert BornAt(c, s.db.now, s.hist, sid);
    if !a.CreateCommit? && !a.RotateCommit? {
      OthersMintNothing(c, s, a);
    } else {
      assert CallOk(c, s.db, s.hist, a.tid, s.calls[a.tid]);
    }
  }

  lemma {:induction false} NoRotationNoNewToken(c: Config, s: State, acts: seq<Action>, sid: Sid)
    requires Sane(c) && Inv(c, s) && Run(c, s, acts) && IsBorn(s.hist, sid) && sid in s.hist.last
    ensures Rotations(After(c, s, acts).log, sid) >= Rotations(s.log, sid)
    ensures Rotations(After(c, s, acts).log, sid) == Rotations(s.log, sid) ==>
              sid in After(c, s, acts).hist.last && After(c, s, acts).hist.last[sid] == s.hist.last[sid]
    decreases |acts|
  {
    if acts != [] {
      Keeps(c, s, acts[0]);
      RotationsGrow(c, s, acts[0], sid);
      LastUnlessRotated(c, s, acts[0], sid);
      NoRotationNoNewToken(c, Do(c, s, acts[0]), acts[1..], sid);
    }
  }

  ghost predicate Untouched(acts: seq<Action>, tid: nat) {
    forall i | 0 <= i < |acts| :: acts[i].Tick? || acts[i].tid != tid
  }

  lemma {:induction false} WaitingCall(c: Config, s: State, acts: seq<Action>, tid: nat)
    requires Run(c, s, acts) && Untouched(acts, tid) && tid in s.calls
    ensures tid in After(c, s, acts).calls && After(c, s, acts).calls[tid] == s.calls[tid]
    decreases |acts|
  {
    if acts != [] {
      assert acts[0].Tick? || acts[0].tid != tid;
      assert Untouched(acts[1..], tid) by {
        forall i | 0 <= i < |acts[1..]| ensures acts[1..][i].Tick? || acts[1..][i].tid != tid {
          assert acts[1..][i] == acts[i + 1];
        }
      }
      assert tid in Do(c, s, acts[0]).calls && Do(c, s, acts[0]).calls[tid] == s.calls[tid];
      WaitingCall(c, Do(c, s, acts[0]), acts[1..], tid);
    }
  }

  /**
   A `delete` that found the hash, with no rotation of the session between its HGET and its MULTI block,
   leaves no token key for the session, whatever else ran in between.
   */
  lemma DeleteLeavesNoToken(c: Config, s: State, tid: nat, acts: seq<Action>)
    requires Sane(c) && Reachable(c, s)
    requires Enabled(c, s, DeleteRead(tid)) && s.calls[tid].sid in s.db.sess
    requires Run(c, Do(c, s, DeleteRead(tid)), acts) && Untouched(acts, tid)
    requires Rotations(After(c, Do(c, s, DeleteRead(tid)), acts).log, s.calls[tid].sid)
             == Rotations(s.log, s.calls[tid].sid)
    ensures var t := After(c, Do(c, s, DeleteRead(tid)), acts);
            Enabled(c, t, DeleteCommit(tid)) && KeysTo(Do(c, t, DeleteCommit(tid)).db, s.calls[tid].sid) == {}
  {
    ReachableGood(c, s);
    var sid := s.calls[tid].sid;
    assert SessAt(c, s.db, s.hist, sid);
    var s1 := Do(c, s, DeleteRead(tid));
    Keeps(c, s, DeleteRead(tid));
    KeepsLog(c, s, DeleteRead(tid));
    WaitingCall(c, s1, acts, tid);
    NoRotationNoNewToken(c, s1, acts, sid);
    RunKeeps(c, s1, acts);
    DeleteOfNewest(c, After(c, s1, acts), tid, sid, s.hist.last[sid].token);
  }

  /** The newest token of the session is not `h`. */
  ghost predicate Replaced(hist: History, sid: Sid, h: Token) {
    sid in hist.last && Mints(hist.last[sid]) && hist.last[sid].token != h
  }

  lemma RotationMakesItOld(c: Config, s: State, a: Action, sid: Sid, h: Token)
    requires Sane(c) && Inv(c, s) && Enabled(c, s, a) && IsBorn(s.hist, sid) && IsMinted(s.hist, h, sid)
    ensures IsBorn(Do(c, s, a).hist, sid) && IsMinted(Do(c, s, a).hist, h, sid)
    ensures (a.RotateCommit? && s.calls[a.tid].sid == sid) || Replaced(s.hist, sid, h) ==>
            Replaced(Do(c, s, a).hist, sid, h)
  {
    Keeps(c, s, a);
    Grows(c, s, a);
    LastUnlessRotated(c, s, a, sid);
    if a.RotateCommit? && s.calls[a.tid].sid == sid {
      assert CallOk(c, s.db, s.hist, a.tid, s.calls[a.tid]);
    }
  }

  /** A rotation replaces the newest token, and an old token is never the newest again. */
  lemma {:induction false} OldStaysOld(c: Config, s: State, acts: seq<Action>, sid: Sid, h: Token)
    requires Sane(c) && Inv(c, s) && Run(c, s, acts) && IsBorn(s.hist, sid) && IsMinted(s.hist, h, sid)
    ensures Rotations(After(c, s, acts).log, sid) > Rotations(s.log, sid) || Replaced(s.hist, sid, h) ==>
              Replaced(After(c, s, acts).hist, sid, h)
    decreases |acts|
  {
    if acts != [] {
      Keeps(c, s, acts[0]);
      RotationsGrow(c, s, acts[0], sid);
      RotationMakesItOld(c, s, acts[0], sid, h);
      OldStaysOld(c, Do(c, s, acts[0]), acts[1..], sid, h);
    }
  }

  /**
   A `delete` that found the hash leaves no token key for the session exactly when there is none left to leave
   or no rotation of the session committed between its HGET and its MULTI block.
   */
  lemma DeleteLeavesNoTokenExactly(c: Config, s: State, tid: nat, acts: seq<Action>)
    requires Sane(c) && Reachable(c, s)
    requires Enabled(c, s, DeleteRead(tid)) && s.calls[tid].sid in s.db.sess
    requires Run(c, Do(c, s, DeleteRead(tid)), acts) && Untouched(acts, tid)
    ensures var t := After(c, Do(c, s, DeleteRead(tid)), acts); var sid := s.calls[tid].sid;
            && Enabled(c, t, DeleteCommit(tid))
            && (KeysTo(Do(c, t, DeleteCommit(tid)).db, sid) == {} <==>
                  KeysTo(t.db, sid) == {} || Rotations(t.log, sid) == Rotations(s.log, sid))
  {
    ReachableGood(c, s);
    var sid := s.calls[tid].sid;
    assert SessAt(c, s.db, s.hist, sid);
    var s1 := Do(c, s, DeleteRead(tid));
    var h := s.hist.last[sid].token;
    Keeps(c, s, DeleteRead(tid));
    KeepsLog(c, s, DeleteRead(tid));
    WaitingCall(c, s1, acts, tid);
    RunKeeps(c, s1, acts);
    var t := After(c, s1, acts);
    if Rotations(t.log, sid) == Rotations(s.log, sid) {
      DeleteLeavesNoToken(c, s, tid, acts);
    } else {
      NoRotationNoNewToken(c, s1, acts, sid);
      OldStaysOld(c, s1, acts, sid, h);
      DeleteOfOlder(c, t, tid, sid, h);
    }
  }

  lemma DeleteOfOlder(c: Config, t: State, tid: nat, sid: Sid, h: Token)
    requires Inv(c, t) && Enabled(c, t, DeleteCommit(tid)) && t.calls[tid].sid == sid
    requires t.calls[tid].seen == Seen(Some(h))
    requires Replaced(t.hist, sid, h)
    ensures KeysTo(Do(c, t, DeleteCommit(tid)).db, sid) == KeysTo(t.db, sid)
  {
    forall k | k in t.db.rt && t.db.rt[k].val == sid ensures k != h { assert TokenAt(c, t.db, t.hist, k); }
    assert Do(c, t, DeleteCommit(tid)).db.rt == t.db.rt - {h};
  }

  lemma DeleteOfNewest(c: Config, t: State, tid: nat, sid: Sid, h: Token)
    requires Inv(c, t) && Enabled(c, t, DeleteCommit(tid)) && t.calls[tid].sid == sid
    requires t.calls[tid].seen == Seen(Some(h))
    requires sid in t.hist.last && Mints(t.hist.last[sid]) && t.hist.last[sid].token == h
    ensures KeysTo(Do(c, t, DeleteCommit(tid)).db, sid) == {}
  {
    forall k | k in t.db.rt && t.db.rt[k].val == sid ensures k == h { assert TokenAt(c, t.db, t.hist, k); }
    assert Do(c, t, DeleteCommit(tid)).db.rt == t.db.rt - {h};
  }

  // --- One winner, one line of tokens ---

  /** A token is obtained by at most one `rotate` or `logout` over the whole run. */
  lemma SingleWinner(c: Config, s: State, i: nat, j: nat)
    requires Sane(c) && Reachable(c, s)
    requires i < |s.log| && j < |s.log| && s.log[i].Took? && s.log[j].Took? && s.log[i].token == s.log[j].token
    ensures i == j
  {
    ReachableGood(c, s);
    assert i < j ==> Distinct(s.log[i], s.log[j]);
    assert j < i ==> Distinct(s.log[j], s.log[i]);
  }

  /**
   The successful rotations of a session form one chain: each consumes the newest token of its session,
   no token is consumed twice, and no token is given out twice.
   */
  lemma LinearHistory(c: Config, s: State, i: nat)
    requires Sane(c) && Reachable(c, s) && i < |s.log| && s.log[i].Rotated?
    ensures var ch := Chain(s.log[..i], s.log[i].sid); ch != [] && ch[|ch| - 1] == s.log[i].used
    ensures forall j | 0 <= j < |s.log| && j != i && s.log[j].Rotated? :: s.log[j].used != s.log[i].used
    ensures forall j | 0 <= j < |s.log| && j != i && Mints(s.log[j]) :: s.log[j].token != s.log[i].token
  {
    ReachableGood(c, s);
    assert Follows(s.log[..i], s.log[i]);
    forall j | 0 <= j < |s.log| && j != i ensures Distinct(s.log[j], s.log[i]) || Distinct(s.log[i], s.log[j]) {
      assert j < i ==> Distinct(s.log[j], s.log[i]);
      assert i < j ==> Distinct(s.log[i], s.log[j]);
    }
  }

  /** The token key of a session, if there is one, holds the newest token of its chain. */
  lemma CurrentTokenIsNewest(c: Config, s: State, t: Token)
    requires Sane(c) && Reachable(c, s) && t in s.db.rt
    ensures var ch := Chain(s.log, s.db.rt[t].val); ch != [] && ch[|ch| - 1] == t
  {
    ReachableGood(c, s);
    assert TokenAt(c, s.db, s.hist, t) && TipOk(s, s.db.rt[t].val);
  }

  /** Event `j` is the one rotation that consumed token `t`, and it is of session `sid`. */
  ghost predicate OnlySuccessor(log: seq<Event>, t: Token, sid: Sid, j: nat)
    requires j < |log|
  {
    && log[j].Rotated? && log[j].used == t && log[j].sid == sid
    && forall k | 0 <= k < |log| && log[k].Rotated? && log[k].used == t :: k == j
  }

  /**
   The end of any race for a token, `rotate` against `rotate` or `rotate` against `logout`: once somebody
   took it and nobody has it in hand, the session is dead, or the token has exactly one successor, or the
   taker died holding it.
   */
  lemma RaceOutcome(c: Config, s: State, i: nat)
    requires Sane(c) && Reachable(c, s) && i < |s.log| && s.log[i].Took?
    requires forall tid | tid in s.calls :: InHandOf(s.calls[tid]) != Some((s.log[i].token, s.log[i].sid))
    ensures || Owner(s.db, s.log[i].sid).None?
            || Dropped(s.log[i].token, s.log[i].sid) in s.log
            || exists j :: 0 <= j < |s.log| && OnlySuccessor(s.log, s.log[i].token, s.log[i].sid, j)
  {
    ReachableGood(c, s);
    assert Settled(s, s.log[i].token, s.log[i].sid);
    if Owner(s.db, s.log[i].sid).Some? && Dropped(s.log[i].token, s.log[i].sid) !in s.log {
      var j :| 0 <= j < |s.log| && s.log[j].Rotated? && s.log[j].used == s.log[i].token && s.log[j].sid == s.log[i].sid;
      RotatedIsOnly(c, s, j);
    }
  }

  lemma RotatedIsOnly(c: Config, s: State, j: nat)
    requires Sane(c) && Reachable(c, s) && j < |s.log| && s.log[j].Rotated?
    ensures OnlySuccessor(s.log, s.log[j].used, s.log[j].sid, j)
  {
    LinearHistory(c, s, j);
  }
}
