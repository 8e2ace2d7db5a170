/**
 What the session store means, once keys and expiries are forgotten: a table of
 live sessions, each with its owner, its times and its one current refresh token.
 */
module SessionTable {
  import opened Options
  import opened Redis

  datatype Row = Row(user: UserId, created: int, last: int, token: Token, ua: string, ip: string)

  type Table = map<Sid, Row>

  /** No two sessions share a token. */
  ghost predicate OneHolder(t: Table) {
    forall a, b | a in t && b in t && t[a].token == t[b].token :: a == b
  }

  ghost function Holder(t: Table, h: Token): Option<Sid> {
    if sid :| sid in t && t[sid].token == h then Some(sid) else None
  }

  /** A session lives while `now < last + idle`. */
  ghost function Expire(t: Table, idle: int, now: int): Table {
    map sid | sid in t && now < t[sid].last + idle :: t[sid]
  }

  ghost function Create(t: Table, now: int, sid: Sid, user: UserId, ua: string, ip: string, h: Token): Table {
    t[sid := Row(user, now, now, h, ua, ip)]
  }

  /** The session that holds `h` gets `next`, or dies if it is older than `abs`. */
  ghost function Rotate(t: Table, abs: int, now: int, h: Token, next: Token): (Table, Option<(Sid, UserId)>) {
    match Holder(t, h)
    case None => (t, None)
    case Some(sid) =>
      if sid !in t then (t, None)
      else if now - t[sid].created > abs then (t - {sid}, None)
      else (t[sid := t[sid].(last := now, token := next)], Some((sid, t[sid].user)))
  }

  ghost function Logout(t: Table, h: Token): Table {
    match Holder(t, h)
    case None => t
    case Some(sid) => t - {sid}
  }

  ghost function SessionsOf(t: Table, user: UserId): set<Sid> {
    set sid | sid in t && t[sid].user == user
  }

  ghost predicate Owns(t: Table, user: UserId, sid: Sid) {
    sid in t && t[sid].user == user
  }

  ghost function Revoke(t: Table, user: UserId, sid: Sid): Table {
    if Owns(t, user, sid) then t - {sid} else t
  }

  ghost function RevokeOthers(t: Table, user: UserId, keep: Sid): Table {
    t - (SessionsOf(t, user) - {keep})
  }

  lemma HolderIs(t: Table, h: Token, sid: Sid)
    requires OneHolder(t) && sid in t && t[sid].token == h
    ensures Holder(t, h) == Some(sid)
  {
  }

  /** A rotation succeeds exactly on the current token of a live session not older than `abs`. */
  lemma RotateSucceedsExactly(t: Table, abs: int, now: int, h: Token, next: Token)
    requires OneHolder(t)
    ensures Rotate(t, abs, now, h, next).1.Some?
       <==> exists sid :: sid in t && t[sid].token == h && now - t[sid].created <= abs
  {
    if sid :| sid in t && t[sid].token == h {
      HolderIs(t, h, sid);
      forall x | x in t && t[x].token == h ensures x == sid { }
    }
  }

  /** A token works once: after a rotation, the old token finds nobody and the new one finds the same session. */
  lemma RotateMovesTheToken(t: Table, abs: int, now: int, h: Token, next: Token)
    requires OneHolder(t) && Holder(t, next).None?
    ensures var (t', r) := Rotate(t, abs, now, h, next);
            && OneHolder(t')
            && Holder(t', h).None?
            && (r.Some? ==> Holder(t', next) == Some(r.value.0) && t'.Keys == t.Keys
                            && t'[r.value.0].created == t[r.value.0].created)
            && (forall sid | sid in t && t[sid].token != h :: sid in t' && t'[sid] == t[sid])
  {
    var (t', r) := Rotate(t, abs, now, h, next);
    if r.Some? {
      assert next != h;
      HolderIs(t', next, r.value.0);
    }
  }

  // --- What the operations do, row by row ---

  /** Time removes exactly the sessions not used for `idle` seconds. */
  lemma ExpireEffect(t: Table, idle: int, now: int)
    ensures var t' := Expire(t, idle, now);
            && (forall sid :: sid in t' <==> sid in t && now - t[sid].last < idle)
            && (forall sid | sid in t' :: t'[sid] == t[sid])
  {
  }

  /** A creation writes one row, created and used now, and no other. */
  lemma CreateEffect(t: Table, now: int, sid: Sid, user: UserId, ua: string, ip: string, h: Token)
    ensures var t' := Create(t, now, sid, user, ua, ip, h);
            && (forall x :: x in t' <==> x == sid || x in t)
            && (forall x | x in t && x != sid :: t'[x] == t[x])
            && t'[sid].user == user && t'[sid].created == now && t'[sid].last == now
            && t'[sid].token == h && t'[sid].ua == ua && t'[sid].ip == ip
  {
  }

  /**
   A refused rotation removes the session that holds `h`, which is then older than `abs`, and nothing else. A
   successful one gives that session `next` as its token and `now` as its last use, and changes nothing else.
   */
  lemma RotateEffect(t: Table, abs: int, now: int, h: Token, next: Token)
    requires OneHolder(t)
    ensures var (t', r) := Rotate(t, abs, now, h, next);
            r.None? ==>
              && (forall sid :: sid in t' <==> sid in t && t[sid].token != h)
              && (forall sid | sid in t && t[sid].token == h :: now - t[sid].created > abs)
    ensures var (t', r) := Rotate(t, abs, now, h, next);
            r.Some? ==>
              var (sid, user) := r.value;
              && t'.Keys == t.Keys && sid in t && t[sid].token == h && now - t[sid].created <= abs
              && user == t[sid].user == t'[sid].user && t'[sid].created == t[sid].created
              && t'[sid].ua == t[sid].ua && t'[sid].ip == t[sid].ip
              && t'[sid].last == now && t'[sid].token == next
    ensures var t' := Rotate(t, abs, now, h, next).0;
            forall sid | sid in t && t[sid].token != h :: sid in t' && t'[sid] == t[sid]
  {
    forall sid | sid in t && t[sid].token == h ensures Holder(t, h) == Some(sid) { HolderIs(t, h, sid); }
  }

  /** A logout removes exactly the session that holds the token. */
  lemma LogoutEffect(t: Table, h: Token)
    requires OneHolder(t)
    ensures forall sid :: sid in Logout(t, h) <==> sid in t && t[sid].token != h
    ensures forall sid | sid in Logout(t, h) :: Logout(t, h)[sid] == t[sid]
  {
    forall sid | sid in t && t[sid].token == h ensures Holder(t, h) == Some(sid) { HolderIs(t, h, sid); }
  }

  /** After a logout the token rotates nothing. */
  lemma LogoutSpendsTheToken(t: Table, abs: int, now: int, h: Token, next: Token)
    requires OneHolder(t)
    ensures OneHolder(Logout(t, h)) && Rotate(Logout(t, h), abs, now, h, next) == (Logout(t, h), None)
  {
    LogoutEffect(t, h);
  }

  /** A revocation removes the session if the user owns it, and nothing else. */
  lemma RevokeEffect(t: Table, user: UserId, sid: Sid)
    ensures forall x :: x in Revoke(t, user, sid) <==> x in t && !(x == sid && t[x].user == user)
    ensures forall x | x in Revoke(t, user, sid) :: Revoke(t, user, sid)[x] == t[x]
  {
  }

  /** What stays is everybody else's sessions, and `keep`. */
  lemma RevokeOthersEffect(t: Table, user: UserId, keep: Sid)
    ensures forall x :: x in RevokeOthers(t, user, keep) <==> x in t && (t[x].user != user || x == keep)
    ensures forall x | x in RevokeOthers(t, user, keep) :: RevokeOthers(t, user, keep)[x] == t[x]
  {
  }
}
