/**
 The spelling of the keys (backend/src/session/store.rs). Every key is a prefix and
 an identifier; the other modules use typed maps instead, one for each prefix.
 */
module RedisKeys {
  import opened Collections

  datatype Key = Sess(sid: string) | Rt(hash: string) | Usess(user: string) | Lock(account: string) | Rl(client: string)

  function Spelling(k: Key): string {
    match k
    case Sess(sid) => "sess:" + sid
    case Rt(hash) => "rt:" + hash
    case Usess(user) => "usess:" + user
    case Lock(account) => "lock:" + account
    case Rl(client) => "rl:auth:" + client
  }

  /** No two keys share a spelling, whatever text the identifiers hold: the five families cannot collide. */
  lemma SpellingIsInjective(a: Key, b: Key)
    requires Spelling(a) == Spelling(b)
    ensures a == b
  {
    assert Spelling(a)[0] == Spelling(b)[0] && Spelling(a)[1] == Spelling(b)[1];
    match a
    case Sess(sid) => Cancel("sess:", sid, b.sid);
    case Rt(hash) => Cancel("rt:", hash, b.hash);
    case Usess(user) => Cancel("usess:", user, b.user);
    case Lock(account) => Cancel("lock:", account, b.account);
    case Rl(client) => Cancel("rl:auth:", client, b.client);
  }
}
