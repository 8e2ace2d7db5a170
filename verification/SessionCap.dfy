/**
 The absolute cap against the life of a session: it stops rotations, but the last
 rotation before it still buys one idle lifetime.
 */
module SessionCap {
  import opened Options
  import opened Redis
  import opened Protocol
  import opened ProtocolInvariant
  import opened SessionSafety
  import opened SessionLifetime

  /** Session 0, created at 0, has just been refreshed at `n`, and `Token(n)` is its current token. */
  ghost predicate Refreshed(c: Config, s: State, n: nat) {
    && Reachable(c, s) && Prompt(s.log, 0) && s.db.now == n
    && 1 !in s.calls
    && Current(c, s.db, n)
    && forall k: nat | k > n :: Token(k) !in s.hist.tokens
  }

  ghost predicate Current(c: Config, db: Db, n: nat) {
    && Sid(0) in db.sess && db.sess[Sid(0)].expiry == Some(n + c.idle)
    && db.sess[Sid(0)].val.user == Some(UserId(0)) && db.sess[Sid(0)].val.created == Some(0)
    && Token(n) in db.rt && db.rt[Token(n)] == Entry(Sid(0), Some(n + c.idle))
  }

  /** A second later, the refresh of session 0 has passed its clock check. */
  ghost predicate Refreshing(c: Config, s: State, n: nat) {
    && Reachable(c, s) && Prompt(s.log, 0) && s.db.now == n + 1
    && 1 in s.calls && s.calls[1] == Rotate(Token(n), Token(n + 1), Sid(0), Checked(UserId(0), 0, n + 1))
    && Sid(0) in s.db.sess
    && s.db.sess[Sid(0)].val.user == Some(UserId(0)) && s.db.sess[Sid(0)].val.created == Some(0)
    && forall k: nat | k > n + 1 :: Token(k) !in s.hist.tokens
  }

  lemma SecondPasses(c: Config, s: State, n: nat) returns (t: State)
    requires Sane(c) && c.idle >= 2 && Refreshed(c, s, n)
    ensures Reachable(c, t) && t.log == s.log && t.calls == s.calls && t.hist == s.hist
    ensures t.db.now == n + 1 && Current(c, t.db, n)
  {
    t := Reaches(c, s, Tick(n + 1));
  }

  lemma TokenTaken(c: Config, s: State, n: nat) returns (t: State)
    requires Sane(c) && Reachable(c, s) && Prompt(s.log, 0) && s.db.now == n + 1 && Current(c, s.db, n)
    requires 1 !in s.calls && forall k: nat | k > n :: Token(k) !in s.hist.tokens
    ensures Reachable(c, t) && Prompt(t.log, 0) && t.db.now == n + 1 && t.db.sess == s.db.sess
    ensures 1 in t.calls && t.calls[1] == Rotate(Token(n), Token(n + 1), Sid(0), Taken)
    ensures forall k: nat | k > n + 1 :: Token(k) !in t.hist.tokens
  {
    t := Reaches(c, s, RotateTake(1, Token(n), Token(n + 1)));
    assert t.log == s.log + [Took(Token(n), Sid(0))];
  }

  lemma RefreshReads(c: Config, s: State, n: nat) returns (t: State)
    requires Sane(c) && c.idle >= 2 && n < c.abs && Refreshed(c, s, n)
    ensures Refreshing(c, t, n)
  {
    var u := SecondPasses(c, s, n);
    var v := TokenTaken(c, u, n);
    var w := Reaches(c, v, RotateRead(1));
    t := Reaches(c, w, RotateClock(1));
  }

  lemma RefreshWrites(c: Config, s: State, n: nat) returns (t: State)
    requires Sane(c) && Refreshing(c, s, n)
    ensures Refreshed(c, t, n + 1)
  {
    RotateMultiEffect(s.db, c.idle, c.abs, Sid(0), UserId(0), n + 1, Token(n + 1));
    var u := Reaches(c, s, RotateCommit(1));
    assert u.log == s.log + [Rotated(Sid(0), UserId(0), Token(n), Token(n + 1), n + 1, n + 1)];
    t := CallReturns(c, u, n + 1);
  }

  lemma CallReturns(c: Config, s: State, n: nat) returns (t: State)
    requires Reachable(c, s) && Prompt(s.log, 0) && s.db.now == n && 1 in s.calls && s.calls[1].Issuing?
    requires Current(c, s.db, n) && forall k: nat | k > n :: Token(k) !in s.hist.tokens
    ensures Refreshed(c, t, n)
  {
    t := Reaches(c, s, Stop(1));
    assert t.log == s.log && t.db == s.db && t.hist == s.hist;
  }

  lemma {:induction false} RefreshedAt(c: Config, n: nat) returns (s: State)
    requires Sane(c) && c.idle >= 2 && n <= c.abs
    ensures Refreshed(c, s, n)
  {
    if n == 0 {
      s := OneCreate(c);
    } else {
      var before := RefreshedAt(c, n - 1);
      var between := RefreshReads(c, before, n - 1);
      s := RefreshWrites(c, between, n - 1);
    }
  }

  /** With idle >= 2 the bound of SessionLifetimeBound is reached, every write at the instant of its clock reading. */
  lemma LongestLife(c: Config)
    requires Sane(c) && c.idle >= 2
    ensures exists s ::
              && Reachable(c, s) && Prompt(s.log, 0)
              && Owner(s.db, Sid(0)) == Some(UserId(0)) && s.db.sess[Sid(0)].val.created == Some(0)
              && s.db.sess[Sid(0)].expiry == Some(c.abs + c.idle)
  {
    var s := RefreshedAt(c, c.abs);
  }

  /** No session outlives its cap. */
  ghost predicate WithinCap(c: Config, s: State) {
    forall sid | Owner(s.db, sid).Some? && s.db.sess[sid].val.created.Some? ::
      s.db.now <= s.db.sess[sid].val.created.value + c.abs
  }

  /**
   With every write at the instant of its clock reading, no session outlives created + abs if and only if idle is one
   second.
   */
  lemma CapHoldsExactly(c: Config)
    requires Sane(c)
    ensures (forall s | Reachable(c, s) && Prompt(s.log, 0) :: WithinCap(c, s)) <==> c.idle == 1
  {
    if c.idle == 1 {
      forall s | Reachable(c, s) && Prompt(s.log, 0) ensures WithinCap(c, s) {
        ReachableInv(c, s);
        forall sid | Owner(s.db, sid).Some? && s.db.sess[sid].val.created.Some?
          ensures s.db.now <= s.db.sess[sid].val.created.value + c.abs
        {
          SessionLifetimeBound(c, s, 0, sid);
          assert SessAt(c, s.db, s.hist, sid);
        }
      }
    } else {
      var s := RefreshedAt(c, c.abs);
      var t := Reaches(c, s, Tick(c.abs + 1));
      assert Owner(t.db, Sid(0)).Some? && !WithinCap(c, t);
    }
  }

  /** With a creation that writes late, some session outlives created + abs under every configuration. */
  lemma LateWriteOutlivesCap(c: Config)
    requires Sane(c)
    ensures exists s :: Reachable(c, s) && !WithinCap(c, s)
  {
    var s := Start(0);
    assert Run(c, Start(0), []) && After(c, Start(0), []) == s;
    s := Reaches(c, s, CreateStart(0, Sid(0), UserId(0), Token(0)));
    s := Reaches(c, s, Tick(c.abs + 1));
    CreateMultiEffect(s.db, c.idle, c.abs, Sid(0), UserId(0), 0, "", "", Token(0));
    s := Reaches(c, s, CreateCommit(0, "", ""));
    assert Owner(s.db, Sid(0)).Some? && s.db.sess[Sid(0)].val.created == Some(0);
  }
}
