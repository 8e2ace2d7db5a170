/**
 `SessionStore` (backend/src/session/store.rs) with its real methods and loops,
 one call at a time, shown to implement the table of module SessionTable. The
 keys of Redis are the field `db`; random identifiers are parameters.
 */
module SessionStore {
  import opened Options
  import opened Redis
  import opened SessionTable
  import opened UserIndex

  datatype Summary = Summary(sid: Sid, created: int, last: int, ua: Option<string>, ip: Option<string>)

  // --- The keys between two calls ---

  ghost predicate SessionOk(db: Db, idle: int, used: set<Sid>, sid: Sid)
    requires sid in db.sess
  {
    var f := db.sess[sid].val;
    && Complete(f)
    && f.created.value <= f.lastSeen.value <= db.now < f.lastSeen.value + idle
    && db.sess[sid].expiry == Some(f.lastSeen.value + idle)
    && f.rth.value in db.rt && db.rt[f.rth.value] == Entry(sid, db.sess[sid].expiry)
    && sid in used
  }

  ghost predicate PointerOk(db: Db, h: Token)
    requires h in db.rt
  {
    db.rt[h].val in db.sess && db.sess[db.rt[h].val].val.rth == Some(h)
  }

  ghost predicate IndexOk(db: Db, abs: int, used: set<Sid>, u: UserId)
    requires u in db.usess
  {
    && db.usess[u].expiry.Some? && db.now < db.usess[u].expiry.value <= db.now + abs
    && db.usess[u].val <= used
    && (forall sid | sid in db.usess[u].val && sid in db.sess :: db.sess[sid].val.user == Some(u))
  }

  ghost predicate KeysOk(db: Db, idle: int, abs: int, used: set<Sid>) {
    && idle >= 1 && abs >= 1
    && (forall sid | sid in db.sess :: SessionOk(db, idle, used, sid))
    && (forall h | h in db.rt :: PointerOk(db, h))
    && (forall u | u in db.usess :: IndexOk(db, abs, used, u))
    && (idle <= abs ==> AllListed(db))
  }

  /** The table the keys stand for. */
  ghost function Rows(db: Db): Table
    requires forall sid | sid in db.sess :: Complete(db.sess[sid].val)
  {
    map sid | sid in db.sess :: RowOf(db.sess[sid].val)
  }

  ghost predicate Complete(f: Fields) {
    f.user.Some? && f.created.Some? && f.lastSeen.Some? && f.ua.Some? && f.ip.Some? && f.rth.Some?
  }

  ghost function RowOf(f: Fields): Row
    requires Complete(f)
  {
    Row(f.user.value, f.created.value, f.lastSeen.value, f.rth.value, f.ua.value, f.ip.value)
  }

  lemma KeysComplete(db: Db, idle: int, abs: int, used: set<Sid>)
    requires KeysOk(db, idle, abs, used)
    ensures forall sid | sid in db.sess :: Complete(db.sess[sid].val)
    ensures OneHolder(Rows(db))
    ensures forall h | h in db.rt :: Holder(Rows(db), h) == Some(db.rt[h].val)
    ensures forall h | h !in db.rt :: Holder(Rows(db), h).None?
  {
    forall sid | sid in db.sess ensures Complete(db.sess[sid].val) { assert SessionOk(db, idle, used, sid); }
    forall a, b | a in db.sess && b in db.sess && Rows(db)[a].token == Rows(db)[b].token ensures a == b {
      assert SessionOk(db, idle, used, a) && SessionOk(db, idle, used, b);
    }
    forall h | h in db.rt ensures Holder(Rows(db), h) == Some(db.rt[h].val) {
      assert PointerOk(db, h);
      HolderIs(Rows(db), h, db.rt[h].val);
    }
    forall h | h !in db.rt ensures Holder(Rows(db), h).None? {
      forall sid | sid in db.sess ensures Rows(db)[sid].token != h { assert SessionOk(db, idle, used, sid); }
    }
  }

  lemma RowsAfterAdvance(db: Db, idle: int, abs: int, used: set<Sid>, t: int)
    requires KeysOk(db, idle, abs, used) && db.now <= t
    ensures forall sid | sid in db.sess :: Complete(db.sess[sid].val)
    ensures forall sid | sid in Advance(db, t).sess :: Complete(Advance(db, t).sess[sid].val)
    ensures Rows(Advance(db, t)) == Expire(Rows(db), idle, t)
  {
    forall sid | sid in db.sess
      ensures Complete(db.sess[sid].val) && (sid in Advance(db, t).sess <==> t < RowOf(db.sess[sid].val).last + idle)
    {
      assert SessionOk(db, idle, used, sid);
    }
  }

  lemma KeysAfterAdvance(db: Db, idle: int, abs: int, used: set<Sid>, t: int)
    requires KeysOk(db, idle, abs, used) && db.now <= t
    ensures KeysOk(Advance(db, t), idle, abs, used)
  {
    var d := Advance(db, t);
    forall sid | sid in d.sess ensures SessionOk(d, idle, used, sid) { assert SessionOk(db, idle, used, sid); }
    forall h | h in d.rt ensures PointerOk(d, h) {
      assert PointerOk(db, h) && SessionOk(db, idle, used, db.rt[h].val);
    }
    forall u | u in d.usess ensures IndexOk(d, abs, used, u) { assert IndexOk(db, abs, used, u); }
    if idle <= abs { ListedAfterTick(db, t); }
  }

  lemma Bounded(db: Db, idle: int, abs: int, used: set<Sid>)
    requires KeysOk(db, idle, abs, used)
    ensures IndexBounded(db, abs)
  {
    forall u | u in db.usess ensures db.usess[u].expiry.Some? && db.usess[u].expiry.value <= db.now + abs {
      assert IndexOk(db, abs, used, u);
    }
  }

  lemma KeysAfterCreate(db: Db, idle: int, abs: int, used: set<Sid>, sid: Sid, user: UserId, ua: string, ip: string,
                        h: Token)
    requires KeysOk(db, idle, abs, used) && sid !in used && h !in db.rt
    ensures KeysOk(CreateMulti(db, idle, abs, sid, user, db.now, ua, ip, h), idle, abs, used + {sid})
  {
    var d := CreateMulti(db, idle, abs, sid, user, db.now, ua, ip, h);
    forall x | x in db.sess ensures x in used { assert SessionOk(db, idle, used, x); }
    SessionsAfterCreate(db, idle, abs, used, sid, user, ua, ip, h);
    Bounded(db, idle, abs, used);
    if idle <= abs { ListedAfterCreate(db, idle, abs, sid, user, db.now, ua, ip, h); }
    IndexAfterCreate(db, idle, abs, used, sid, user, ua, ip, h);
  }

  lemma SessionsAfterCreate(db: Db, idle: int, abs: int, used: set<Sid>, sid: Sid, user: UserId, ua: string,
                            ip: string, h: Token)
    requires KeysOk(db, idle, abs, used) && sid !in used && sid !in db.sess && h !in db.rt
    ensures var d := CreateMulti(db, idle, abs, sid, user, db.now, ua, ip, h);
            && (forall x | x in d.sess :: SessionOk(d, idle, used + {sid}, x))
            && (forall k | k in d.rt :: PointerOk(d, k))
  {
    var d := CreateMulti(db, idle, abs, sid, user, db.now, ua, ip, h);
    CreateMultiEffect(db, idle, abs, sid, user, db.now, ua, ip, h);
    forall x | x in d.sess ensures SessionOk(d, idle, used + {sid}, x) {
      assert x != sid ==> SessionOk(db, idle, used, x);
    }
    forall k | k in d.rt ensures PointerOk(d, k) { assert k in db.rt ==> PointerOk(db, k); }
  }

  lemma IndexAfterCreate(db: Db, idle: int, abs: int, used: set<Sid>, sid: Sid, user: UserId, ua: string, ip: string,
                         h: Token)
    requires KeysOk(db, idle, abs, used) && sid !in used && sid !in db.sess
    ensures var d := CreateMulti(db, idle, abs, sid, user, db.now, ua, ip, h);
            forall u | u in d.usess :: IndexOk(d, abs, used + {sid}, u)
  {
    var d := CreateMulti(db, idle, abs, sid, user, db.now, ua, ip, h);
    CreateMultiEffect(db, idle, abs, sid, user, db.now, ua, ip, h);
    forall u | u in d.usess ensures IndexOk(d, abs, used + {sid}, u) {
      assert u in db.usess ==> IndexOk(db, abs, used, u);
    }
  }

  lemma RowsAfterCreate(db: Db, idle: int, abs: int, used: set<Sid>, sid: Sid, user: UserId, ua: string, ip: string,
                        h: Token)
    requires KeysOk(db, idle, abs, used) && sid !in used
    ensures var d := CreateMulti(db, idle, abs, sid, user, db.now, ua, ip, h);
            && d.now == db.now
            && (forall x | x in db.sess :: Complete(db.sess[x].val))
            && (forall x | x in d.sess :: Complete(d.sess[x].val))
            && Rows(d) == Create(Rows(db), db.now, sid, user, ua, ip, h)
  {
    forall x | x in db.sess ensures x in used && Complete(db.sess[x].val) { assert SessionOk(db, idle, used, x); }
    CreateMultiEffect(db, idle, abs, sid, user, db.now, ua, ip, h);
  }

  lemma RowsAfterRotate(db: Db, idle: int, abs: int, used: set<Sid>, h: Token, next: Token)
    requires KeysOk(db, idle, abs, used) && h in db.rt
    ensures var sid := db.rt[h].val;
            && sid in db.sess && db.sess[sid].val.user.Some?
            && var user := db.sess[sid].val.user.value;
            && var d := RotateMulti(DelToken(db, h), idle, abs, sid, user, db.now, next);
            && d.now == db.now
            && (forall x | x in db.sess :: Complete(db.sess[x].val))
            && (forall x | x in d.sess :: Complete(d.sess[x].val))
            && Rows(d) == Rows(db)[sid := Rows(db)[sid].(last := db.now, token := next)]
  {
    KeysComplete(db, idle, abs, used);
    assert PointerOk(db, h);
    var sid := db.rt[h].val;
    var user := db.sess[sid].val.user.value;
    RotateMultiEffect(DelToken(db, h), idle, abs, sid, user, db.now, next);
    RowReplaced(db, RotateMulti(DelToken(db, h), idle, abs, sid, user, db.now, next), sid, db.now, next);
  }

  lemma RowReplaced(db: Db, d: Db, sid: Sid, now: int, next: Token)
    requires sid in db.sess && forall x | x in db.sess :: Complete(db.sess[x].val)
    requires sid in d.sess && d.sess == db.sess[sid := d.sess[sid]]
    requires d.sess[sid].val == db.sess[sid].val.(lastSeen := Some(now), rth := Some(next))
    ensures forall x | x in d.sess :: Complete(d.sess[x].val)
    ensures Rows(d) == Rows(db)[sid := Rows(db)[sid].(last := now, token := next)]
  {
  }

  /** GETDEL followed at once by the MULTI block of `rotate`. */
  lemma KeysAfterRotate(db: Db, idle: int, abs: int, used: set<Sid>, h: Token, next: Token)
    requires KeysOk(db, idle, abs, used) && h in db.rt && next !in db.rt
    ensures var sid := db.rt[h].val;
            && sid in db.sess && db.sess[sid].val.user.Some?
            && var user := db.sess[sid].val.user.value;
               KeysOk(RotateMulti(DelToken(db, h), idle, abs, sid, user, db.now, next), idle, abs, used)
  {
    var sid := db.rt[h].val;
    assert PointerOk(db, h) && SessionOk(db, idle, used, sid);
    var user := db.sess[sid].val.user.value;
    Bounded(db, idle, abs, used);
    if idle <= abs { ListedAfterRotate(DelToken(db, h), idle, abs, sid, user, db.now, next); }
    SessionsAfterRotate(db, idle, abs, used, h, next, user);
    IndexAfterRotate(db, idle, abs, used, h, next, user);
  }

  lemma SessionsAfterRotate(db: Db, idle: int, abs: int, used: set<Sid>, h: Token, next: Token, user: UserId)
    requires KeysOk(db, idle, abs, used) && h in db.rt && next !in db.rt
    ensures var d := RotateMulti(DelToken(db, h), idle, abs, db.rt[h].val, user, db.now, next);
            && (forall x | x in d.sess :: SessionOk(d, idle, used, x))
            && (forall k | k in d.rt :: PointerOk(d, k))
  {
    var d := RotateMulti(DelToken(db, h), idle, abs, db.rt[h].val, user, db.now, next);
    assert PointerOk(db, h) && SessionOk(db, idle, used, db.rt[h].val);
    RotateMultiEffect(DelToken(db, h), idle, abs, db.rt[h].val, user, db.now, next);
    forall x | x in d.sess ensures SessionOk(d, idle, used, x) { assert SessionOk(db, idle, used, x); }
    forall k | k in d.rt ensures PointerOk(d, k) { assert k in db.rt ==> PointerOk(db, k); }
  }

  lemma IndexAfterRotate(db: Db, idle: int, abs: int, used: set<Sid>, h: Token, next: Token, user: UserId)
    requires KeysOk(db, idle, abs, used) && h in db.rt
    ensures var d := RotateMulti(DelToken(db, h), idle, abs, db.rt[h].val, user, db.now, next);
            forall u | u in d.usess :: IndexOk(d, abs, used, u)
  {
    var d := RotateMulti(DelToken(db, h), idle, abs, db.rt[h].val, user, db.now, next);
    assert PointerOk(db, h);
    RotateMultiEffect(DelToken(db, h), idle, abs, db.rt[h].val, user, db.now, next);
    forall u | u in d.usess ensures IndexOk(d, abs, used, u) { assert IndexOk(db, abs, used, u); }
  }

  /** The keys right after a GETDEL, before `delete` completes the death of the session. */
  ghost predicate KeysBut(db: Db, idle: int, abs: int, used: set<Sid>, sid: Sid) {
    && idle >= 1 && abs >= 1
    && (forall x | x in db.sess && x != sid :: SessionOk(db, idle, used, x))
    && (forall h | h in db.rt && db.rt[h].val != sid :: PointerOk(db, h))
    && (forall h | h in db.rt && db.rt[h].val == sid :: HGetAll(db, sid).rth == Some(h))
    && (forall h | h in db.rt && HGetAll(db, sid).rth == Some(h) :: db.rt[h].val == sid)
    && (forall u | u in db.usess :: IndexOk(db, abs, used, u))
    && (idle <= abs ==> AllListed(db))
  }

  lemma KeysAfterRemoval(db: Db, d: Db, idle: int, abs: int, used: set<Sid>, sid: Sid, user: UserId)
    requires KeysBut(db, idle, abs, used, sid)
    requires d.now == db.now && d.sess == db.sess - {sid} && IndexShrinks(db, d, user, sid)
    requires d.rt.Keys <= db.rt.Keys && forall h | h in d.rt :: d.rt[h] == db.rt[h] && db.rt[h].val != sid
    requires forall h | h in db.rt && db.rt[h].val != sid :: h in d.rt
    requires idle <= abs ==> AllListed(d)
    ensures KeysOk(d, idle, abs, used)
  {
    forall x | x in d.sess ensures SessionOk(d, idle, used, x) { assert SessionOk(db, idle, used, x); }
    forall k | k in d.rt ensures PointerOk(d, k) { assert PointerOk(db, k); }
    forall u | u in d.usess ensures IndexOk(d, abs, used, u) { assert IndexOk(db, abs, used, u); }
  }

  lemma KeysAfterDelete(db: Db, idle: int, abs: int, used: set<Sid>, sid: Sid, user: UserId)
    requires KeysBut(db, idle, abs, used, sid)
    ensures KeysOk(DeleteMulti(db, sid, user, HGetAll(db, sid).rth), idle, abs, used)
  {
    var rth := HGetAll(db, sid).rth;
    DeleteMultiEffect(db, sid, user, rth);
    if idle <= abs { ListedAfterDelete(db, sid, user, rth); }
    KeysAfterRemoval(db, DeleteMulti(db, sid, user, rth), idle, abs, used, sid, user);
  }

  lemma KeysAfterGetDel(db: Db, idle: int, abs: int, used: set<Sid>, h: Token)
    requires KeysOk(db, idle, abs, used) && h in db.rt
    ensures KeysBut(DelToken(db, h), idle, abs, used, db.rt[h].val)
  {
    var d := DelToken(db, h);
    var sid := db.rt[h].val;
    assert PointerOk(db, h) && SessionOk(db, idle, used, sid);
    forall x | x in d.sess && x != sid ensures SessionOk(d, idle, used, x) { assert SessionOk(db, idle, used, x); }
    forall k | k in d.rt ensures PointerOk(d, k) { assert PointerOk(db, k); }
    forall u | u in d.usess ensures IndexOk(d, abs, used, u) { assert IndexOk(db, abs, used, u); }
    assert idle <= abs ==> forall x | x in d.sess && d.sess[x].val.user.Some? :: Listed(db, x);
  }

  lemma KeysAreKeysBut(db: Db, idle: int, abs: int, used: set<Sid>, sid: Sid)
    requires KeysOk(db, idle, abs, used)
    ensures KeysBut(db, idle, abs, used, sid)
  {
    forall h | h in db.rt && db.rt[h].val == sid ensures HGetAll(db, sid).rth == Some(h) { assert PointerOk(db, h); }
    assert sid in db.sess ==> SessionOk(db, idle, used, sid);
  }

  lemma KeysAfterSRem(db: Db, idle: int, abs: int, used: set<Sid>, u: UserId, sid: Sid)
    requires KeysOk(db, idle, abs, used) && sid !in db.sess
    ensures KeysOk(SRem(db, u, sid), idle, abs, used)
  {
    KeysAreKeysBut(db, idle, abs, used, sid);
    SRemEffect(db, u, sid);
    if idle <= abs { ListedAfterRemoval(db, u, sid); }
    KeysAfterRemoval(db, SRem(db, u, sid), idle, abs, used, sid, u);
  }

  lemma RowsWithout(db: Db, d: Db, sid: Sid)
    requires forall x | x in db.sess :: Complete(db.sess[x].val)
    requires d.sess == db.sess - {sid}
    ensures forall x | x in d.sess :: Complete(d.sess[x].val)
    ensures Rows(d) == Rows(db) - {sid}
  {
  }

  /** With idle <= abs, the live ids of an index are exactly the user's live sessions; the others are left-overs. */
  lemma IndexIsLiveSet(db: Db, idle: int, abs: int, used: set<Sid>, user: UserId)
    requires KeysOk(db, idle, abs, used)
    ensures forall x | x in db.sess :: Complete(db.sess[x].val)
    ensures SMembers(db, user) * db.sess.Keys <= SessionsOf(Rows(db), user)
    ensures idle <= abs ==> SessionsOf(Rows(db), user) <= SMembers(db, user)
  {
    KeysComplete(db, idle, abs, used);
    forall x | x in SMembers(db, user) * db.sess.Keys ensures x in SessionsOf(Rows(db), user) {
      assert IndexOk(db, abs, used, user);
    }
    if idle <= abs {
      forall x | x in SessionsOf(Rows(db), user) ensures x in SMembers(db, user) { assert Listed(db, x); }
    }
  }

  // --- Lists of sessions ---

  function OrNone(s: Option<string>): Option<string> {
    if s.Some? && s.value != "" then s else None
  }

  function SummaryOf(sid: Sid, f: Fields): Summary {
    Summary(sid, if f.created.Some? then f.created.value else 0, if f.lastSeen.Some? then f.lastSeen.value else 0,
            OrNone(f.ua), OrNone(f.ip))
  }

  /** What a listed session shows is what its row holds, an empty text being shown as none. */
  lemma SummaryShowsRow(sid: Sid, f: Fields)
    requires Complete(f)
    ensures var s, r := SummaryOf(sid, f), RowOf(f);
            && s.sid == sid && s.created == r.created && s.last == r.last
            && s.ua == (if r.ua == "" then None else Some(r.ua)) && s.ip == (if r.ip == "" then None else Some(r.ip))
  {
  }

  /** Entries that are the summaries of live hashes, newest first, show the rows of the table in that order. */
  lemma ListShowsRows(db: Db, out: seq<Summary>)
    requires forall x | x in db.sess :: Complete(db.sess[x].val)
    requires forall s | s in out :: s.sid in db.sess && s == SummaryOf(s.sid, db.sess[s.sid].val)
    ensures var t := Rows(db);
            forall s | s in out ::
              && s.sid in t && s.created == t[s.sid].created && s.last == t[s.sid].last
              && s.ua == (if t[s.sid].ua == "" then None else Some(t[s.sid].ua))
              && s.ip == (if t[s.sid].ip == "" then None else Some(t[s.sid].ip))
    ensures NewestFirst(out) ==>
              var t := Rows(db);
              forall i, j | 0 <= i < j < |out| && out[i].sid in t && out[j].sid in t ::
                t[out[i].sid].last >= t[out[j].sid].last
  {
    forall s | s in out ensures s == SummaryOf(s.sid, db.sess[s.sid].val) {
      SummaryShowsRow(s.sid, db.sess[s.sid].val);
    }
  }

  ghost function SidsOf(out: seq<Summary>): set<Sid> {
    set s | s in out :: s.sid
  }

  ghost predicate NewestFirst(out: seq<Summary>) {
    forall i, j | 0 <= i < j < |out| :: out[i].last >= out[j].last
  }

  function Insert(s: Summary, out: seq<Summary>): (r: seq<Summary>)
    requires NewestFirst(out)
    ensures NewestFirst(r) && multiset(r) == multiset(out) + multiset{s}
  {
    if out == [] then [s]
    else if s.last >= out[0].last then
      InFront(s, out);
      [s] + out
    else
      Uncons(out);
      var rest := Insert(s, out[1..]);
      InsertedOrOld(s, out[1..], rest);
      InFront(out[0], rest);
      [out[0]] + rest
  }

  lemma InFront(s: Summary, rest: seq<Summary>)
    requires NewestFirst(rest) && forall i | 0 <= i < |rest| :: s.last >= rest[i].last
    ensures NewestFirst([s] + rest) && multiset([s] + rest) == multiset{s} + multiset(rest)
  {
  }

  lemma Uncons(out: seq<Summary>)
    requires out != [] && NewestFirst(out)
    ensures multiset(out) == multiset{out[0]} + multiset(out[1..])
    ensures NewestFirst(out[1..]) && forall s | s in out[1..] :: out[0].last >= s.last
  {
    assert out == [out[0]] + out[1..];
  }

  lemma InsertedOrOld(s: Summary, out: seq<Summary>, rest: seq<Summary>)
    requires multiset(rest) == multiset(out) + multiset{s}
    ensures forall i | 0 <= i < |rest| :: rest[i] == s || rest[i] in out
  {
    forall i | 0 <= i < |rest| ensures rest[i] == s || rest[i] in out { assert rest[i] in multiset(rest); }
  }

  /** `sort_by_key` with the reversed time of last use. */
  function SortNewestFirst(out: seq<Summary>): (r: seq<Summary>)
    ensures NewestFirst(r) && multiset(r) == multiset(out)
  {
    if out == [] then []
    else
      assert multiset(out) == multiset{out[0]} + multiset(out[1..]) by { assert out == [out[0]] + out[1..]; }
      Insert(out[0], SortNewestFirst(out[1..]))
  }

  lemma SameSummaries(a: seq<Summary>, b: seq<Summary>)
    requires multiset(a) == multiset(b)
    ensures |a| == |b| && (forall s :: s in a <==> s in b) && SidsOf(a) == SidsOf(b)
  {
    assert |multiset(a)| == |a| && |multiset(b)| == |b|;
    forall s ensures s in a <==> s in b {
      assert s in a <==> s in multiset(a);
      assert s in b <==> s in multiset(b);
    }
  }

  /** SMEMBERS returns the ids of a set in no particular order. */
  method Enumerate(ids: set<Sid>) returns (out: seq<Sid>)
    ensures |out| == |ids| && NoRepeat(out)
    ensures forall x :: x in out <==> x in ids
  {
    out := [];
    var rest := ids;
    while rest != {}
      invariant rest <= ids && |out| + |rest| == |ids|
      invariant forall i, j | 0 <= i < j < |out| :: out[i] != out[j]
      invariant forall x :: x in out <==> x in ids && x !in rest
      decreases rest
    {
      var x :| x in rest;
      rest := rest - {x};
      out := out + [x];
    }
  }

  ghost function Upto(sids: seq<Sid>, i: nat): set<Sid>
    requires i <= |sids|
  {
    set k | 0 <= k < i :: sids[k]
  }

  ghost predicate NoRepeat(sids: seq<Sid>) {
    forall i, j | 0 <= i < j < |sids| :: sids[i] != sids[j]
  }

  lemma UptoAll(sids: seq<Sid>, ids: set<Sid>)
    requires forall x :: x in sids <==> x in ids
    ensures Upto(sids, |sids|) == ids
  {
  }

  lemma UptoNext(sids: seq<Sid>, i: nat)
    requires i < |sids| && NoRepeat(sids)
    ensures Upto(sids, i + 1) == Upto(sids, i) + {sids[i]} && sids[i] !in Upto(sids, i)
  {
  }

  lemma UptoBut(sids: seq<Sid>, i: nat, keep: Sid)
    requires i < |sids| && NoRepeat(sids)
    ensures sids[i] == keep ==> Upto(sids, i + 1) - {keep} == Upto(sids, i) - {keep}
    ensures sids[i] != keep ==>
              Upto(sids, i + 1) - {keep} == Upto(sids, i) - {keep} + {sids[i]} && sids[i] !in Upto(sids, i) - {keep}
  {
    UptoNext(sids, i);
  }

  /** What the loop of `list` has written once it has handled the ids in `done`. */
  ghost predicate ListInv(before: Db, d: Db, user: UserId, raw: seq<Summary>, done: set<Sid>) {
    && d.sess == before.sess && d.now == before.now && d.rt == before.rt
    && (forall x :: x in SidsOf(raw) <==> x in done && x in before.sess)
    && |raw| == |SidsOf(raw)|
    && (forall s | s in raw :: s.sid in before.sess && s == SummaryOf(s.sid, before.sess[s.sid].val))
    && (forall x :: x in SMembers(d, user) <==> x in SMembers(before, user) && (x in before.sess || x !in done))
    && (forall u | u != user :: SMembers(d, u) == SMembers(before, u))
  }

  lemma ListPurges(before: Db, d: Db, user: UserId, raw: seq<Summary>, done: set<Sid>, sid: Sid)
    requires ListInv(before, d, user, raw, done) && sid !in d.sess
    ensures ListInv(before, SRem(d, user, sid), user, raw, done + {sid})
  {
    SRemEffect(d, user, sid);
    SRemOthers(d, user, sid);
  }

  lemma AppendSid(raw: seq<Summary>, s: Summary)
    ensures SidsOf(raw + [s]) == SidsOf(raw) + {s.sid}
  {
  }

  lemma ListKeeps(before: Db, d: Db, user: UserId, raw: seq<Summary>, done: set<Sid>, sid: Sid)
    requires ListInv(before, d, user, raw, done) && sid in d.sess && sid !in done
    ensures ListInv(before, d, user, raw + [SummaryOf(sid, HGetAll(d, sid))], done + {sid})
  {
    var s := SummaryOf(sid, HGetAll(d, sid));
    AppendSid(raw, s);
    forall x | x in raw + [s] ensures x.sid in before.sess && x == SummaryOf(x.sid, before.sess[x.sid].val) {
      assert x in raw || x == s;
    }
  }

  lemma ListDone(before: Db, d: Db, idle: int, abs: int, used: set<Sid>, user: UserId, raw: seq<Summary>,
                 out: seq<Summary>)
    requires KeysOk(before, idle, abs, used)
    requires ListInv(before, d, user, raw, SMembers(before, user)) && multiset(out) == multiset(raw)
    ensures forall x | x in before.sess :: Complete(before.sess[x].val)
    ensures forall x | x in d.sess :: Complete(d.sess[x].val)
    ensures Rows(d) == Rows(before) && d.now == before.now
    ensures forall u | u != user :: SMembers(d, u) == SMembers(before, u)
    ensures SidsOf(out) == SMembers(before, user) * Rows(d).Keys == SMembers(d, user) && |out| == |SidsOf(out)|
    ensures forall s | s in out :: Owns(Rows(d), user, s.sid) && s == SummaryOf(s.sid, d.sess[s.sid].val)
    ensures idle <= abs ==> SidsOf(out) == SessionsOf(Rows(d), user)
  {
    SameSummaries(raw, out);
    IndexIsLiveSet(before, idle, abs, used, user);
    ListedIsLive(before, d, user, raw);
    ListedIsOwned(before, d, user, raw, out);
  }

  lemma ListedIsOwned(before: Db, d: Db, user: UserId, raw: seq<Summary>, out: seq<Summary>)
    requires ListInv(before, d, user, raw, SMembers(before, user)) && SidsOf(out) <= SMembers(before, user)
    requires (forall s | s in out :: s in raw) && (forall x | x in before.sess :: Complete(before.sess[x].val))
    requires SMembers(before, user) * before.sess.Keys <= SessionsOf(Rows(before), user)
    ensures Rows(d) == Rows(before)
    ensures forall s | s in out :: Owns(Rows(d), user, s.sid) && s == SummaryOf(s.sid, d.sess[s.sid].val)
  {
    forall s | s in out ensures Owns(Rows(d), user, s.sid) {
      assert s.sid in SidsOf(out);
      assert s.sid in SMembers(before, user) * before.sess.Keys;
    }
  }

  lemma ListedIsLive(before: Db, d: Db, user: UserId, raw: seq<Summary>)
    requires ListInv(before, d, user, raw, SMembers(before, user))
    ensures SidsOf(raw) == SMembers(before, user) * before.sess.Keys == SMembers(d, user)
  {
  }

  /** What the loop of `revoke_others` has done once it has deleted the ids in `killed`. */
  ghost predicate RevokeInv(before: Db, d: Db, user: UserId, revoked: int, killed: set<Sid>) {
    && d.now == before.now
    && d.sess == before.sess - killed
    && revoked == |killed|
    && (forall x :: x in SMembers(d, user) <==> x in SMembers(before, user) && x !in killed)
  }

  lemma RevokeDeletes(before: Db, d: Db, d': Db, user: UserId, revoked: int, killed: set<Sid>, sid: Sid)
    requires RevokeInv(before, d, user, revoked, killed) && sid !in killed
    requires d'.now == d.now && d'.sess == d.sess - {sid} && IndexShrinks(d, d', user, sid)
    ensures RevokeInv(before, d', user, revoked + 1, killed + {sid})
  {
  }

  lemma RevokeDone(before: Db, d: Db, idle: int, abs: int, used: set<Sid>, user: UserId, killed: set<Sid>)
    requires KeysOk(before, idle, abs, used) && d.sess == before.sess - killed && killed <= SMembers(before, user)
    ensures forall x | x in before.sess :: Complete(before.sess[x].val)
    ensures forall x | x in d.sess :: Complete(d.sess[x].val)
    ensures Rows(d) == Rows(before) - killed
    ensures forall sid | sid in Rows(before) && sid !in Rows(d) :: sid in killed && Owns(Rows(before), user, sid)
  {
    IndexIsLiveSet(before, idle, abs, used, user);
    forall sid | sid in Rows(before) && sid !in Rows(d) ensures sid in killed && Owns(Rows(before), user, sid) {
      assert sid in SMembers(before, user) * before.sess.Keys;
    }
  }

  lemma RevokeDoneExactly(before: Db, idle: int, abs: int, used: set<Sid>, user: UserId, keep: Sid)
    requires KeysOk(before, idle, abs, used) && idle <= abs
    ensures forall x | x in before.sess :: Complete(before.sess[x].val)
    ensures var live, ids := SessionsOf(Rows(before), user) - {keep}, SMembers(before, user) - {keep};
            && Rows(before) - ids == RevokeOthers(Rows(before), user, keep)
            && |live| <= |ids| && (|live| == |ids| <==> ids <= Rows(before).Keys)
  {
    IndexIsLiveSet(before, idle, abs, used, user);
    var live, ids := SessionsOf(Rows(before), user) - {keep}, SMembers(before, user) - {keep};
    assert live == ids * Rows(before).Keys;
    RevokedCount(ids, Rows(before).Keys, live);
    SameDifference(Rows(before), ids, live);
  }

  lemma OthersRevoked(before: Db, d: Db, idle: int, abs: int, used: set<Sid>, user: UserId, keep: Sid, revoked: nat)
    requires KeysOk(before, idle, abs, used)
    requires RevokeInv(before, d, user, revoked, SMembers(before, user) - {keep})
    ensures forall x | x in before.sess :: Complete(before.sess[x].val)
    ensures forall x | x in d.sess :: Complete(d.sess[x].val)
    ensures Rows(d) == Rows(before) - (SMembers(before, user) - {keep})
    ensures forall sid | sid in Rows(before) && sid !in Rows(d) :: Owns(Rows(before), user, sid) && sid != keep
    ensures SMembers(d, user) == SMembers(before, user) * {keep}
    ensures idle <= abs ==>
              && Rows(d) == RevokeOthers(Rows(before), user, keep)
              && |SessionsOf(Rows(before), user) - {keep}| <= revoked
              && (|SessionsOf(Rows(before), user) - {keep}| == revoked <==>
                  SMembers(before, user) - {keep} <= Rows(before).Keys)
  {
    RevokeDone(before, d, idle, abs, used, user, SMembers(before, user) - {keep});
    if idle <= abs { RevokeDoneExactly(before, idle, abs, used, user, keep); }
  }

  lemma SameDifference<K, V>(m: map<K, V>, a: set<K>, b: set<K>)
    requires b == a * m.Keys
    ensures m - a == m - b
  {
  }

  class SessionStore {
    const idle: int
    const abs: int
    var db: Db
    ghost var used: set<Sid>

    ghost predicate Valid()
      reads this
    {
      KeysOk(db, idle, abs, used)
    }

    ghost function Table(): Table
      requires Valid()
      reads this
    {
      KeysComplete(db, idle, abs, used);
      Rows(db)
    }

    ghost function Index(user: UserId): set<Sid>
      reads this
    {
      SMembers(db, user)
    }

    constructor (idle: int, abs: int, now: int)
      requires idle >= 1 && abs >= 1
      ensures Valid() && Table() == map[] && used == {} && db.now == now && this.idle == idle && this.abs == abs
    {
      this.idle, this.abs := idle, abs;
      db := Db(now, map[], map[], map[]);
      used := {};
    }

    /** The clock of Redis, which is also the clock of the callers, moves on. */
    method Wait(t: int)
      requires Valid() && db.now <= t
      modifies this
      ensures Valid() && db.now == t && used == old(used)
      ensures Table() == Expire(old(Table()), idle, t)
      ensures forall sid :: sid in Table() <==> sid in old(Table()) && t - old(Table())[sid].last < idle
      ensures forall sid | sid in Table() :: Table()[sid] == old(Table())[sid]
    {
      ExpireEffect(Rows(db), idle, t);
      KeysAfterAdvance(db, idle, abs, used, t);
      RowsAfterAdvance(db, idle, abs, used, t);
      db := Advance(db, t);
    }

    method Create(sid: Sid, user: UserId, ua: Option<string>, ip: Option<string>, h: Token)
      requires Valid() && sid !in used && Holder(Table(), h).None?
      modifies this
      ensures Valid() && db.now == old(db.now) && used == old(used) + {sid}
      ensures var a := if ua.Some? then ua.value else ""; var i := if ip.Some? then ip.value else "";
              && Table() == SessionTable.Create(old(Table()), db.now, sid, user, a, i, h)
              && sid in Table() && Table()[sid] == Row(user, db.now, db.now, h, a, i)
      ensures forall x | x != sid :: x in Table() <==> x in old(Table())
      ensures forall x | x in old(Table()) && x != sid :: Table()[x] == old(Table())[x]
    {
      KeysComplete(db, idle, abs, used);
      var now := db.now;
      var a := if ua.Some? then ua.value else "";
      var i := if ip.Some? then ip.value else "";
      KeysAfterCreate(db, idle, abs, used, sid, user, a, i, h);
      RowsAfterCreate(db, idle, abs, used, sid, user, a, i, h);
      db := CreateMulti(db, idle, abs, sid, user, now, a, i, h);
      used := used + {sid};
    }

    method Delete(sid: Sid, user: UserId)
      requires KeysBut(db, idle, abs, used, sid)
      modifies this
      ensures Valid() && used == old(used) && db.now == old(db.now)
      ensures db.sess == old(db.sess) - {sid} && IndexShrinks(old(db), db, user, sid)
      ensures forall h :: h in db.rt <==> h in old(db).rt && old(db).rt[h].val != sid
      ensures forall h | h in db.rt :: db.rt[h] == old(db).rt[h]
    {
      var rth := HGetAll(db, sid).rth;
      KeysAfterDelete(db, idle, abs, used, sid, user);
      DeleteMultiEffect(db, sid, user, rth);
      db := DeleteMulti(db, sid, user, rth);
    }

    method Rotate(h: Token, next: Token) returns (r: Option<(Sid, UserId)>)
      requires Valid() && Holder(Table(), next).None?
      modifies this
      ensures Valid() && db.now == old(db.now) && used == old(used)
      ensures (Table(), r) == SessionTable.Rotate(old(Table()), abs, db.now, h, next)
    {
      KeysComplete(db, idle, abs, used);
      ghost var before := db;
      var sid := Get(db, h);
      db := DelToken(db, h);
      if sid.None? {
        assert db == before;
        return None;
      }
      assert PointerOk(before, h) && SessionOk(before, idle, used, sid.value);
      var f := HGetAll(db, sid.value);
      if f.user.None? || f.created.None? {
        return None;
      }
      var now := db.now;
      if now - f.created.value > abs {
        KeysAfterGetDel(before, idle, abs, used, h);
        Delete(sid.value, f.user.value);
        RowsWithout(before, db, sid.value);
        return None;
      }
      KeysAfterRotate(before, idle, abs, used, h, next);
      RowsAfterRotate(before, idle, abs, used, h, next);
      db := RotateMulti(db, idle, abs, sid.value, f.user.value, now, next);
      return Some((sid.value, f.user.value));
    }

    method OwnerIfActive(sid: Sid) returns (owner: Option<UserId>)
      requires Valid()
      ensures owner == if sid in Table() then Some(Table()[sid].user) else None
    {
      assert sid in db.sess ==> SessionOk(db, idle, used, sid);
      owner := Owner(db, sid);
    }

    method Logout(h: Token)
      requires Valid()
      modifies this
      ensures Valid() && db.now == old(db.now) && used == old(used)
      ensures Table() == SessionTable.Logout(old(Table()), h)
      ensures forall sid :: sid in Table() <==> sid in old(Table()) && old(Table())[sid].token != h
      ensures forall sid | sid in Table() :: Table()[sid] == old(Table())[sid]
    {
      KeysComplete(db, idle, abs, used);
      LogoutEffect(Rows(db), h);
      ghost var before := db;
      var sid := Get(db, h);
      db := DelToken(db, h);
      if sid.None? {
        assert db == before;
        return;
      }
      assert PointerOk(before, h) && SessionOk(before, idle, used, sid.value);
      var owner := Owner(db, sid.value);
      if owner.Some? {
        KeysAfterGetDel(before, idle, abs, used, h);
        Delete(sid.value, owner.value);
        RowsWithout(before, db, sid.value);
      }
    }

    method Revoke(user: UserId, sid: Sid) returns (revoked: bool)
      requires Valid()
      modifies this
      ensures Valid() && db.now == old(db.now) && used == old(used)
      ensures revoked == Owns(old(Table()), user, sid)
      ensures Table() == SessionTable.Revoke(old(Table()), user, sid)
      ensures Table() == if revoked then old(Table()) - {sid} else old(Table())
      ensures forall x | x in old(Table()) && old(Table())[x].user != user ::
                x in Table() && Table()[x] == old(Table())[x]
    {
      KeysComplete(db, idle, abs, used);
      ghost var before := db;
      assert sid in db.sess ==> SessionOk(db, idle, used, sid);
      var owner := OwnerIfActive(sid);
      revoked := owner == Some(user);
      if revoked {
        KeysAreKeysBut(db, idle, abs, used, sid);
        Delete(sid, user);
        RowsWithout(before, db, sid);
      }
    }

    /**
     The listed sessions are the live ones of the index, each once, newest first; the index is left with
     those and nothing else. With idle <= abs they are all the live sessions of the user.
     */
    method List(user: UserId) returns (out: seq<Summary>)
      requires Valid()
      modifies this
      ensures Valid() && db.now == old(db.now) && used == old(used) && Table() == old(Table())
      ensures SidsOf(out) == old(Index(user)) * Table().Keys && |out| == |SidsOf(out)|
      ensures forall s | s in out :: Owns(Table(), user, s.sid) && s == SummaryOf(s.sid, db.sess[s.sid].val)
      ensures var t := Table();
              forall s | s in out ::
                && s.sid in t && s.created == t[s.sid].created && s.last == t[s.sid].last
                && s.ua == (if t[s.sid].ua == "" then None else Some(t[s.sid].ua))
                && s.ip == (if t[s.sid].ip == "" then None else Some(t[s.sid].ip))
      ensures NewestFirst(out)
      ensures var t := Table();
              forall i, j | 0 <= i < j < |out| && out[i].sid in t && out[j].sid in t ::
                t[out[i].sid].last >= t[out[j].sid].last
      ensures Index(user) == SidsOf(out)
      ensures forall u | u != user :: Index(u) == old(Index(u))
      ensures idle <= abs ==> SidsOf(out) == SessionsOf(Table(), user)
    {
      ghost var before := db;
      var raw := CollectIndex(user);
      out := SortNewestFirst(raw);
      ListDone(before, db, idle, abs, used, user, raw, out);
      ListShowsRows(db, out);
    }

    method CollectIndex(user: UserId) returns (raw: seq<Summary>)
      requires Valid()
      modifies this
      ensures Valid() && used == old(used) && ListInv(old(db), db, user, raw, SMembers(old(db), user))
    {
      var sids := Enumerate(SMembers(db, user));
      UptoAll(sids, SMembers(db, user));
      raw := CollectLive(user, sids);
    }

    /** The loop of `list`: one HGETALL for each id, and an SREM for each id whose hash is gone. */
    method CollectLive(user: UserId, sids: seq<Sid>) returns (raw: seq<Summary>)
      requires Valid() && NoRepeat(sids)
      modifies this
      ensures Valid() && used == old(used) && ListInv(old(db), db, user, raw, Upto(sids, |sids|))
      ensures var t := Table();
              forall s | s in raw ::
                && s.sid in t && s.created == t[s.sid].created && s.last == t[s.sid].last
                && s.ua == (if t[s.sid].ua == "" then None else Some(t[s.sid].ua))
                && s.ip == (if t[s.sid].ip == "" then None else Some(t[s.sid].ip))
    {
      raw := [];
      for i := 0 to |sids|
        invariant Valid() && used == old(used) && ListInv(old(db), db, user, raw, Upto(sids, i))
      {
        var sid := sids[i];
        UptoNext(sids, i);
        raw := CollectOne(old(db), user, raw, Upto(sids, i), sid);
      }
      KeysComplete(db, idle, abs, used);
      ListShowsRows(db, raw);
    }

    /** One id of the index: purged if its hash is gone, listed otherwise. */
    method CollectOne(ghost before: Db, user: UserId, raw: seq<Summary>, ghost done: set<Sid>, sid: Sid)
      returns (raw': seq<Summary>)
      requires Valid() && ListInv(before, db, user, raw, done) && sid !in done
      modifies this`db
      ensures Valid() && ListInv(before, db, user, raw', done + {sid})
    {
      if sid !in db.sess {
        ListPurges(before, db, user, raw, done, sid);
        KeysAfterSRem(db, idle, abs, used, user, sid);
        db := SRem(db, user, sid);
        return raw;
      }
      ListKeeps(before, db, user, raw, done, sid);
      return raw + [SummaryOf(sid, HGetAll(db, sid))];
    }

    /**
     Deletes every session of the index but `keep`, and counts the ids it deleted, left-overs included.
     With idle <= abs the user keeps exactly `keep`, if it was live, and the count is the number of sessions
     killed exactly when the index held no left-over.
     */
    method RevokeOthers(user: UserId, keep: Sid) returns (revoked: nat)
      requires Valid()
      modifies this
      ensures Valid() && db.now == old(db.now) && used == old(used)
      ensures revoked == |old(Index(user)) - {keep}|
      ensures Table() == old(Table()) - (old(Index(user)) - {keep})
      ensures forall sid | sid in old(Table()) && sid !in Table() :: Owns(old(Table()), user, sid) && sid != keep
      ensures Index(user) == old(Index(user)) * {keep}
      ensures idle <= abs ==>
                && Table() == SessionTable.RevokeOthers(old(Table()), user, keep)
                && (forall sid :: sid in Table() <==>
                      sid in old(Table()) && (old(Table())[sid].user != user || sid == keep))
                && |SessionsOf(old(Table()), user) - {keep}| <= revoked
                && (|SessionsOf(old(Table()), user) - {keep}| == revoked <==>
                    old(Index(user)) - {keep} <= old(Table()).Keys)
    {
      ghost var before := db;
      var sids := Enumerate(SMembers(db, user));
      UptoAll(sids, SMembers(db, user));
      revoked := DeleteBut(user, keep, sids);
      OthersRevoked(before, db, idle, abs, used, user, keep, revoked);
      RevokeOthersEffect(Rows(before), user, keep);
    }

    /** The loop of `revoke_others`. */
    method DeleteBut(user: UserId, keep: Sid, sids: seq<Sid>) returns (revoked: nat)
      requires Valid() && NoRepeat(sids)
      modifies this
      ensures Valid() && used == old(used) && RevokeInv(old(db), db, user, revoked, Upto(sids, |sids|) - {keep})
    {
      revoked := 0;
      for i := 0 to |sids|
        invariant Valid() && used == old(used) && RevokeInv(old(db), db, user, revoked, Upto(sids, i) - {keep})
      {
        var sid := sids[i];
        UptoBut(sids, i, keep);
        if sid != keep {
          KeysAreKeysBut(db, idle, abs, used, sid);
          ghost var d := db;
          Delete(sid, user);
          RevokeDeletes(old(db), d, db, user, revoked, Upto(sids, i) - {keep}, sid);
          revoked := revoked + 1;
        }
      }
    }
  }

  lemma SRemOthers(db: Db, user: UserId, sid: Sid)
    ensures forall u | u != user :: SMembers(SRem(db, user, sid), u) == SMembers(db, u)
  {
  }

  lemma RevokedCount(ids: set<Sid>, keys: set<Sid>, live: set<Sid>)
    requires live == ids * keys
    ensures |live| <= |ids| && (|live| == |ids| <==> ids <= keys)
  {
    var rest := ids - keys;
    assert ids == live + rest && live !! rest;
    assert |ids| == |live| + |rest|;
    if rest == {} {
      assert ids <= keys;
    } else {
      var x :| x in rest;
      assert x in ids && x !in keys;
    }
  }
}
