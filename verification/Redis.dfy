/**
 The part of Redis the session store relies on: three families of typed keys,
 each key with its own expiry, and the commands the store sends.

 Identifiers are opaque. A `Token` stands for the hash of a refresh token.
 Every function below is one command, or one MULTI block when its name ends in
 `Multi`; Redis runs each of them at a single instant `db.now`.
 */
module Redis {
  import opened Options

  datatype Sid = Sid(id: nat)
  datatype UserId = UserId(id: nat)
  datatype Token = Token(id: nat)

  /** The hash under `sess:{sid}`. HSET writes some fields and leaves the others alone. */
  datatype Fields = Fields(
    user: Option<UserId>,
    created: Option<int>,
    lastSeen: Option<int>,
    ua: Option<string>,
    ip: Option<string>,
    rth: Option<Token>)

  /** A stored value and the instant from which it is gone, if EXPIRE was ever applied. */
  datatype Entry<+V> = Entry(val: V, expiry: Option<int>)

  datatype Db = Db(
    now: int,
    sess: map<Sid, Entry<Fields>>,
    rt: map<Token, Entry<Sid>>,
    usess: map<UserId, Entry<set<Sid>>>)

  const NO_FIELDS := Fields(None, None, None, None, None, None)

  predicate Gone<V>(e: Entry<V>, now: int) {
    e.expiry.Some? && e.expiry.value <= now
  }

  /** The clock moves to `t`; keys whose expiry is reached disappear. */
  function Advance(db: Db, t: int): Db {
    Db(t,
       map k | k in db.sess && !Gone(db.sess[k], t) :: db.sess[k],
       map k | k in db.rt && !Gone(db.rt[k], t) :: db.rt[k],
       map k | k in db.usess && !Gone(db.usess[k], t) :: db.usess[k])
  }

  // --- Reads ---

  function Get(db: Db, h: Token): Option<Sid> {
    if h in db.rt then Some(db.rt[h].val) else None
  }

  function HGetAll(db: Db, sid: Sid): Fields {
    if sid in db.sess then db.sess[sid].val else NO_FIELDS
  }

  /** HGET of the `user_id` field. */
  function Owner(db: Db, sid: Sid): Option<UserId> {
    HGetAll(db, sid).user
  }

  function SMembers(db: Db, u: UserId): set<Sid> {
    if u in db.usess then db.usess[u].val else {}
  }

  // --- Writes ---

  function Overlay<T>(before: Option<T>, written: Option<T>): Option<T> {
    if written.Some? then written else before
  }

  function Written(b: Fields, f: Fields): Fields {
    Fields(Overlay(b.user, f.user), Overlay(b.created, f.created), Overlay(b.lastSeen, f.lastSeen),
           Overlay(b.ua, f.ua), Overlay(b.ip, f.ip), Overlay(b.rth, f.rth))
  }

  /** HSET creates the hash, without an expiry, when it is missing. */
  function HSet(db: Db, sid: Sid, f: Fields): Db {
    db.(sess := db.sess[sid := Entry(Written(HGetAll(db, sid), f),
                                     if sid in db.sess then db.sess[sid].expiry else None)])
  }

  /** EXPIRE does nothing on a missing key. */
  function ExpireSess(db: Db, sid: Sid, secs: int): Db {
    if sid in db.sess then db.(sess := db.sess[sid := Entry(db.sess[sid].val, Some(db.now + secs))]) else db
  }

  function ExpireUser(db: Db, u: UserId, secs: int): Db {
    if u in db.usess then db.(usess := db.usess[u := Entry(db.usess[u].val, Some(db.now + secs))]) else db
  }

  function SetEx(db: Db, h: Token, sid: Sid, secs: int): Db {
    db.(rt := db.rt[h := Entry(sid, Some(db.now + secs))])
  }

  function SAdd(db: Db, u: UserId, sid: Sid): Db {
    db.(usess := db.usess[u := Entry(SMembers(db, u) + {sid}, if u in db.usess then db.usess[u].expiry else None)])
  }

  /** SREM; a set that becomes empty disappears. */
  function SRem(db: Db, u: UserId, sid: Sid): Db {
    if u !in db.usess then db
    else if db.usess[u].val - {sid} == {} then db.(usess := db.usess - {u})
    else db.(usess := db.usess[u := Entry(db.usess[u].val - {sid}, db.usess[u].expiry)])
  }

  function DelToken(db: Db, h: Token): Db {
    db.(rt := db.rt - {h})
  }

  function DelSess(db: Db, sid: Sid): Db {
    db.(sess := db.sess - {sid})
  }

  // --- MULTI blocks of the store ---

  /** `create`: HSET, EXPIRE, SET EX, SADD, EXPIRE. `stamp` is the caller's clock reading. */
  function CreateMulti(db: Db, idle: int, abs: int, sid: Sid, user: UserId, stamp: int, ua: string, ip: string,
                       h: Token): Db {
    var d1 := HSet(db, sid, Fields(Some(user), Some(stamp), Some(stamp), Some(ua), Some(ip), Some(h)));
    var d2 := ExpireSess(d1, sid, idle);
    var d3 := SetEx(d2, h, sid, idle);
    ExpireUser(SAdd(d3, user, sid), user, abs)
  }

  /** `rotate`: SET EX, HSET of two fields, EXPIRE, EXPIRE. */
  function RotateMulti(db: Db, idle: int, abs: int, sid: Sid, user: UserId, stamp: int, h: Token): Db {
    var d1 := SetEx(db, h, sid, idle);
    var d2 := HSet(d1, sid, NO_FIELDS.(lastSeen := Some(stamp), rth := Some(h)));
    ExpireUser(ExpireSess(d2, sid, idle), user, abs)
  }

  /** `delete`: DEL of the token seen by the preceding HGET if there was one, DEL, SREM. */
  function DeleteMulti(db: Db, sid: Sid, user: UserId, rth: Option<Token>): Db {
    var d1 := if rth.Some? then DelToken(db, rth.value) else db;
    SRem(DelSess(d1, sid), user, sid)
  }

  // --- The state a MULTI block leaves ---

  /** Creation of a missing session: three whole keys, each with its expiry. */
  lemma CreateMultiEffect(db: Db, idle: int, abs: int, sid: Sid, user: UserId, stamp: int, ua: string, ip: string,
                          h: Token)
    requires sid !in db.sess
    ensures var d := CreateMulti(db, idle, abs, sid, user, stamp, ua, ip, h);
            && d.now == db.now
            && d.sess == db.sess[sid := Entry(Fields(Some(user), Some(stamp), Some(stamp), Some(ua), Some(ip), Some(h)),
                                              Some(db.now + idle))]
            && d.rt == db.rt[h := Entry(sid, Some(db.now + idle))]
            && d.usess == db.usess[user := Entry(SMembers(db, user) + {sid}, Some(db.now + abs))]
  {
  }

  /** A rotation keeps the owner and the creation time, and does not put the session back in an index. */
  lemma RotateMultiEffect(db: Db, idle: int, abs: int, sid: Sid, user: UserId, stamp: int, h: Token)
    ensures var d := RotateMulti(db, idle, abs, sid, user, stamp, h);
            && d.now == db.now
            && d.sess == db.sess[sid := Entry(HGetAll(db, sid).(lastSeen := Some(stamp), rth := Some(h)),
                                              Some(db.now + idle))]
            && d.rt == db.rt[h := Entry(sid, Some(db.now + idle))]
            && d.usess == if user in db.usess then db.usess[user := Entry(db.usess[user].val, Some(db.now + abs))]
                          else db.usess
  {
  }

  /** What SREM and `delete` leave of the indexes: no set gains an id or a later expiry. */
  ghost predicate IndexShrinks(db: Db, d: Db, user: UserId, sid: Sid) {
    && (forall u | u in d.usess :: u in db.usess && d.usess[u].expiry == db.usess[u].expiry)
    && (forall u | u in d.usess :: d.usess[u].val == if u == user then db.usess[u].val - {sid} else db.usess[u].val)
    && SMembers(d, user) == SMembers(db, user) - {sid}
  }

  lemma SRemEffect(db: Db, user: UserId, sid: Sid)
    ensures var d := SRem(db, user, sid);
            d.now == db.now && d.sess == db.sess && d.rt == db.rt && IndexShrinks(db, d, user, sid)
  {
  }

  lemma DeleteMultiEffect(db: Db, sid: Sid, user: UserId, rth: Option<Token>)
    ensures var d := DeleteMulti(db, sid, user, rth);
            && d.now == db.now
            && d.sess == db.sess - {sid}
            && d.rt == (if rth.Some? then db.rt - {rth.value} else db.rt)
            && IndexShrinks(db, d, user, sid)
  {
  }
}
