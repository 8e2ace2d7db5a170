/** The expiring counters of the store: `lock:{user}` and `rl:auth:{ip}`. */
module Counters {
  datatype Counter = Absent | Counting(n: nat, expiry: int)

  /** The counter as Redis shows it at `now`. */
  function Seen(c: Counter, now: int): Counter {
    if c.Counting? && c.expiry <= now then Absent else c
  }

  function Value(c: Counter): nat {
    if c.Absent? then 0 else c.n
  }

  /** INCR and EXPIRE in one MULTI block: the window restarts at every call. */
  function Hit(c: Counter, now: int, window: int): Counter {
    Counting(Value(Seen(c, now)) + 1, now + window)
  }
}
