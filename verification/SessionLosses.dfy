/**
 What a call that dies with a token in hand costs its session: the token is lost for
 good, and the session lives on without one until its hash expires.
 */
module SessionLosses {
  import opened Options
  import opened Redis
  import opened Protocol
  import opened ProtocolInvariant
  import opened ProtocolLog
  import opened SessionSafety

  /** No token key points at the session and no call holds a token of it. */
  ghost predicate Stranded(s: State, sid: Sid) {
    IsBorn(s.hist, sid) && KeysTo(s.db, sid) == {} && HoldersOf(s.calls, sid) == {}
  }

  lemma StrandedMeans(s: State, sid: Sid)
    ensures Stranded(s, sid) <==>
              && IsBorn(s.hist, sid)
              && (forall t | t in s.db.rt :: s.db.rt[t].val != sid)
              && (forall tid | tid in s.calls && InHandOf(s.calls[tid]).Some? :: InHandOf(s.calls[tid]).value.1 != sid)
  {
    forall t | t in s.db.rt && s.db.rt[t].val == sid ensures t in KeysTo(s.db, sid) { }
    forall tid | tid in s.calls && InHandOf(s.calls[tid]).Some? && InHandOf(s.calls[tid]).value.1 == sid
      ensures tid in HoldersOf(s.calls, sid) { }
  }

  /** Only `create` and `rotate` write hashes and token keys. */
  lemma OnlyCommitsWrite(c: Config, s: State, a: Action)
    requires Enabled(c, s, a) && !a.CreateCommit? && !a.RotateCommit?
    ensures var d := Do(c, s, a).db;
            && (forall t | t in d.rt :: t in s.db.rt && d.rt[t] == s.db.rt[t])
            && (forall sid | sid in d.sess :: sid in s.db.sess && d.sess[sid] == s.db.sess[sid])
  {
  }

  lemma CommitsElsewhere(c: Config, s: State, a: Action, sid: Sid)
    requires Inv(c, s) && Enabled(c, s, a) && Stranded(s, sid) && (a.CreateCommit? || a.RotateCommit?)
    ensures s.calls[a.tid].sid != sid
  {
    StrandedMeans(s, sid);
    assert CallOk(c, s.db, s.hist, a.tid, s.calls[a.tid]);
    assert a.RotateCommit? ==> InHandOf(s.calls[a.tid]).Some?;
  }

  /** Nothing writes a key of a stranded session: its hash stays as it is or goes. */
  lemma NothingWritten(c: Config, s: State, a: Action, sid: Sid)
    requires Inv(c, s) && Enabled(c, s, a) && Stranded(s, sid)
    ensures var d := Do(c, s, a).db;
            && (forall t | t in d.rt :: d.rt[t].val != sid)
            && (sid in d.sess ==> sid in s.db.sess && d.sess[sid] == s.db.sess[sid])
  {
    StrandedMeans(s, sid);
    if a.CreateCommit? || a.RotateCommit? {
      CommitsElsewhere(c, s, a, sid);
      var p := s.calls[a.tid];
      if a.CreateCommit? {
        CreateSparesOthers(s.db, c, p, a.ua, a.ip, sid);
      } else {
        RotateSparesOthers(s.db, c, p, sid);
      }
    } else {
      OnlyCommitsWrite(c, s, a);
    }
  }

  lemma CreateSparesOthers(db: Db, c: Config, p: Pc, ua: string, ip: string, sid: Sid)
    requires p.Creating? && p.sid != sid && forall t | t in db.rt :: db.rt[t].val != sid
    ensures var d := CreateMulti(db, c.idle, c.abs, p.sid, p.user, p.stamp, ua, ip, p.token);
            && (forall t | t in d.rt :: d.rt[t].val != sid)
            && (sid in d.sess ==> sid in db.sess && d.sess[sid] == db.sess[sid])
  {
  }

  lemma RotateSparesOthers(db: Db, c: Config, p: Pc, sid: Sid)
    requires p.Rotate? && p.stage.Checked? && p.sid != sid && forall t | t in db.rt :: db.rt[t].val != sid
    ensures var d := RotateMulti(db, c.idle, c.abs, p.sid, p.stage.user, p.stage.stamp, p.next);
            && (forall t | t in d.rt :: d.rt[t].val != sid)
            && (sid in d.sess ==> sid in db.sess && d.sess[sid] == db.sess[sid])
  {
    RotateMultiEffect(db, c.idle, c.abs, p.sid, p.stage.user, p.stage.stamp, p.next);
  }

  /** A call that holds a token after a step held it before, or took it at that step. */
  lemma HolderWasHolder(c: Config, s: State, a: Action, tid: nat)
    requires Enabled(c, s, a) && tid in Do(c, s, a).calls && InHandOf(Do(c, s, a).calls[tid]).Some?
    ensures var held := InHandOf(Do(c, s, a).calls[tid]);
            || (tid in s.calls && InHandOf(s.calls[tid]) == held)
            || ((a.RotateTake? || a.LogoutTake?) && a.used in s.db.rt && held.value.1 == s.db.rt[a.used].val)
  {
    if a.Tick? || a.tid != tid {
      assert tid in s.calls && s.calls[tid] == Do(c, s, a).calls[tid];
    }
  }

  lemma StaysStranded(c: Config, s: State, a: Action, sid: Sid)
    requires Sane(c) && Inv(c, s) && Enabled(c, s, a) && Stranded(s, sid)
    ensures Stranded(Do(c, s, a), sid)
  {
    Keeps(c, s, a);
    NothingWritten(c, s, a, sid);
    StrandedMeans(s, sid);
    forall tid | tid in Do(c, s, a).calls && InHandOf(Do(c, s, a).calls[tid]).Some?
      ensures InHandOf(Do(c, s, a).calls[tid]).value.1 != sid
    {
      HolderWasHolder(c, s, a, tid);
    }
    StrandedMeans(Do(c, s, a), sid);
  }

  lemma NotRotated(c: Config, s: State, a: Action, sid: Sid)
    requires Inv(c, s) && Enabled(c, s, a) && Stranded(s, sid)
    ensures Rotations(Do(c, s, a).log, sid) == Rotations(s.log, sid)
  {
    RotationsGrow(c, s, a, sid);
    if a.RotateCommit? { CommitsElsewhere(c, s, a, sid); }
  }

  /**
   A session without a token key and without a holder never has one again and is never rotated again: in every
   later state its hash is as it was, its expiry included, or it is gone.
   */
  lemma {:induction false} StrandedForGood(c: Config, s: State, acts: seq<Action>, sid: Sid)
    requires Sane(c) && Inv(c, s) && Run(c, s, acts) && Stranded(s, sid)
    ensures var t := After(c, s, acts);
            && Inv(c, t) && Stranded(t, sid) && Rotations(t.log, sid) == Rotations(s.log, sid)
            && (sid in t.db.sess ==> sid in s.db.sess && t.db.sess[sid] == s.db.sess[sid])
    decreases |acts|
  {
    if acts != [] {
      Keeps(c, s, acts[0]);
      StaysStranded(c, s, acts[0], sid);
      NotRotated(c, s, acts[0], sid);
      NothingWritten(c, s, acts[0], sid);
      StrandedForGood(c, Do(c, s, acts[0]), acts[1..], sid);
    }
  }

  /** So it lives until the expiry it has, and no longer. */
  lemma StrandedUntilExpiry(c: Config, s: State, acts: seq<Action>, sid: Sid)
    requires Sane(c) && Reachable(c, s) && Run(c, s, acts) && Stranded(s, sid) && Owner(After(c, s, acts).db, sid).Some?
    ensures sid in s.db.sess && s.db.sess[sid].expiry.Some? && After(c, s, acts).db.now < s.db.sess[sid].expiry.value
  {
    ReachableInv(c, s);
    StrandedForGood(c, s, acts, sid);
    assert SessAt(c, After(c, s, acts).db, After(c, s, acts).hist, sid);
  }

  // --- Lost tokens ---

  ghost predicate NoSuccessor(log: seq<Event>, t: Token) {
    forall i | 0 <= i < |log| && log[i].Rotated? :: log[i].used != t
  }

  ghost predicate DropsOk(s: State) {
    forall i | 0 <= i < |s.log| && s.log[i].Dropped? :: Stranded(s, s.log[i].sid) && NoSuccessor(s.log, s.log[i].token)
  }

  /** A call that dies with a token leaves its session stranded. */
  lemma DeathStrands(c: Config, s: State, tid: nat, t: Token, sid: Sid)
    requires Sane(c) && Inv(c, s) && Enabled(c, s, Stop(tid)) && InHandOf(s.calls[tid]) == Some((t, sid))
    ensures Stranded(Do(c, s, Stop(tid)), sid)
  {
    assert CallOk(c, s.db, s.hist, tid, s.calls[tid]);
    forall k | k in s.db.rt ensures s.db.rt[k].val != sid { assert TokenAt(c, s.db, s.hist, k); }
    forall other | other in s.calls && other != tid && InHandOf(s.calls[other]).Some?
      ensures InHandOf(s.calls[other]).value.1 != sid
    {
      assert CallOk(c, s.db, s.hist, other, s.calls[other]);
    }
    StrandedMeans(Do(c, s, Stop(tid)), sid);
  }

  /** A token in hand was never consumed by a rotation. */
  lemma InHandIsUnused(c: Config, s: State, tid: nat, t: Token, sid: Sid)
    requires Inv(c, s) && Facts(c, s) && tid in s.calls && InHandOf(s.calls[tid]) == Some((t, sid))
    ensures NoSuccessor(s.log, t)
  {
    assert CallOk(c, s.db, s.hist, tid, s.calls[tid]);
    forall i | 0 <= i < |s.log| && s.log[i].Rotated? ensures s.log[i].used != t {
      assert EventOk(c, s.db, s.hist, s.log[i]);
    }
  }

  /** A rotation does not consume a token that was lost. */
  lemma LostIsNotUsed(c: Config, s: State, a: Action, i: nat)
    requires Sane(c) && Inv(c, s) && Enabled(c, s, a) && Facts(c, s) && DropsOk(s)
    requires i < |s.log| && s.log[i].Dropped?
    ensures |Do(c, s, a).log| > |s.log| && Do(c, s, a).log[|s.log|].Rotated? ==>
            Do(c, s, a).log[|s.log|].used != s.log[i].token
  {
    if a.RotateCommit? {
      assert CallOk(c, s.db, s.hist, a.tid, s.calls[a.tid]);
      assert EventOk(c, s.db, s.hist, s.log[i]);
      StrandedMeans(s, s.log[i].sid);
      assert InHandOf(s.calls[a.tid]) == Some((s.calls[a.tid].used, s.calls[a.tid].sid));
    } else {
      OnlyCommitsRotate(c, s, a);
    }
  }

  lemma OnlyCommitsRotate(c: Config, s: State, a: Action)
    requires Enabled(c, s, a) && !a.RotateCommit?
    ensures |Do(c, s, a).log| > |s.log| ==> !Do(c, s, a).log[|s.log|].Rotated?
  {
  }

  lemma OnlyDeathsDrop(c: Config, s: State, a: Action)
    requires Enabled(c, s, a)
    ensures var s' := Do(c, s, a);
            |s'.log| > |s.log| && s'.log[|s.log|].Dropped? ==>
              && a.Stop? && s'.log == s.log + [s'.log[|s.log|]]
              && InHandOf(s.calls[a.tid]) == Some((s'.log[|s.log|].token, s'.log[|s.log|].sid))
  {
  }

  lemma OneEvent(c: Config, s: State, a: Action)
    requires Enabled(c, s, a)
    ensures |s.log| <= |Do(c, s, a).log| <= |s.log| + 1
  {
  }

  lemma KeepsDrops(c: Config, s: State, a: Action)
    requires Sane(c) && Inv(c, s) && Enabled(c, s, a) && Facts(c, s) && DropsOk(s)
    ensures DropsOk(Do(c, s, a))
  {
    var s' := Do(c, s, a);
    LogExtends(c, s, a);
    OneEvent(c, s, a);
    OnlyDeathsDrop(c, s, a);
    forall i | 0 <= i < |s'.log| && s'.log[i].Dropped?
      ensures Stranded(s', s'.log[i].sid) && NoSuccessor(s'.log, s'.log[i].token)
    {
      var t, sid := s'.log[i].token, s'.log[i].sid;
      if i < |s.log| {
        assert s'.log[i] == s'.log[..|s.log|][i] == s.log[i];
        StaysStranded(c, s, a, sid);
        LostIsNotUsed(c, s, a, i);
      } else {
        DeathStrands(c, s, a.tid, t, sid);
        InHandIsUnused(c, s, a.tid, t, sid);
      }
      assert NoSuccessor(s.log, t);
      forall j | 0 <= j < |s'.log| && s'.log[j].Rotated? ensures s'.log[j].used != t {
        if j < |s.log| { assert s'.log[j] == s'.log[..|s.log|][j] == s.log[j]; }
      }
    }
  }

  lemma {:induction false} RunKeepsDrops(c: Config, s: State, acts: seq<Action>)
    requires Good(c, s) && DropsOk(s) && Run(c, s, acts)
    ensures DropsOk(After(c, s, acts))
    decreases |acts|
  {
    if acts != [] {
      Keeps(c, s, acts[0]);
      KeepsLog(c, s, acts[0]);
      KeepsDrops(c, s, acts[0]);
      RunKeepsDrops(c, Do(c, s, acts[0]), acts[1..]);
    }
  }

  /** A lost token has no successor in the whole run, and its session has no token any more. */
  lemma LostForGood(c: Config, s: State, t: Token, sid: Sid)
    requires Sane(c) && Reachable(c, s) && Dropped(t, sid) in s.log
    ensures Stranded(s, sid) && NoSuccessor(s.log, t)
  {
    var now: int, acts: seq<Action> :| Run(c, Start(now), acts) && After(c, Start(now), acts) == s;
    RunKeepsDrops(c, Start(now), acts);
  }

  /**
   The outcome of a race for a token of a session that is still alive: once nobody holds the token, it has
   exactly one successor if and only if no call died holding it.
   */
  lemma RaceOutcomeExactly(c: Config, s: State, i: nat)
    requires Sane(c) && Reachable(c, s) && i < |s.log| && s.log[i].Took?
    requires forall tid | tid in s.calls :: InHandOf(s.calls[tid]) != Some((s.log[i].token, s.log[i].sid))
    requires Owner(s.db, s.log[i].sid).Some?
    ensures Dropped(s.log[i].token, s.log[i].sid) !in s.log <==>
              exists j :: 0 <= j < |s.log| && OnlySuccessor(s.log, s.log[i].token, s.log[i].sid, j)
  {
    if Dropped(s.log[i].token, s.log[i].sid) in s.log {
      LostForGood(c, s, s.log[i].token, s.log[i].sid);
    } else {
      RaceOutcome(c, s, i);
    }
  }

  /** Such a death leaves a live session without a token, in some run of every configuration. */
  lemma LossIsReachable(c: Config)
    requires Sane(c)
    ensures exists s ::
            Reachable(c, s) && Owner(s.db, Sid(0)).Some? && Dropped(Token(0), Sid(0)) in s.log && Stranded(s, Sid(0))
  {
    var s := OneCreate(c);
    s := Reaches(c, s, RotateTake(1, Token(0), Token(1)));
    s := Reaches(c, s, Stop(1));
    assert s.log[|s.log| - 1] == Dropped(Token(0), Sid(0));
    LostForGood(c, s, Token(0), Sid(0));
  }
}
