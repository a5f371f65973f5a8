/** The in-process store of internal/stores/memory: a map from key to status.

    The store's mutex is left out (operations are sequential) and statuses
    are values, so a status returned earlier is not changed by a later call. */
module MemoryStore {
  import opened GoInt
  import opened Status
  import opened Frames

  type Statuses = map<string, Status>

  /** Unconditionally replaces the key's status with a fresh one and returns it. */
  function Reset(m: Statuses, key: string, now: int): (r: Reply<Statuses>)
    ensures r.status.count == 0 && r.status.start == now
    ensures key in r.state && r.state[key] == r.status
    ensures OnlyKeyChanged(m, r.state, key)
  {
    var s := NewStatus(now);
    Reply(s, m[key := s])
  }

  /** The key's status; an unknown key is first created by `Reset`. */
  function Get(m: Statuses, key: string, now: int): (r: Reply<Statuses>)
    ensures key in r.state && r.state[key] == r.status
    ensures key in m ==> r.status == m[key] && r.state == m
    ensures key !in m ==> r.status.count == 0 && r.status.start == now
    ensures OnlyKeyChanged(m, r.state, key)
  {
    if key in m then Reply(m[key], m) else Reset(m, key, now)
  }

  /** Counts one request against the key; an unknown key gets a fresh window
      first, so it ends with count 1. */
  function Increment(m: Statuses, key: string, now: int): (r: Reply<Statuses>)
    ensures key in r.state && r.state[key] == r.status
    ensures key in m ==> r.status == Status(Inc(m[key].count), m[key].start)
    ensures key !in m ==> r.status.count == 1 && r.status.start == now
    ensures OnlyKeyChanged(m, r.state, key)
  {
    var g := Get(m, key, now);
    var s := g.status.(count := Inc(g.status.count));
    Reply(s, g.state[key := s])
  }

  /** A second `Get` sees what the first one returned and changes nothing. */
  lemma GetIdempotent(m: Statuses, key: string, now: int, later: int)
    ensures Get(Get(m, key, now).state, key, later) == Get(m, key, now)
  {
  }

  /** `n` increments of an unknown key, all at `now`. */
  function IncrementTimes(m: Statuses, key: string, now: int, n: nat): Statuses
  {
    if n == 0 then m else Increment(IncrementTimes(m, key, now, n - 1), key, now).state
  }

  /** Starting from an unknown key, `n` increments leave count `n` and the
      window that the first one opened. */
  lemma {:induction false} IncrementCountsEachCall(m: Statuses, key: string, now: int, n: nat)
    requires key !in m && 1 <= n <= MaxInt
    ensures key in IncrementTimes(m, key, now, n)
    ensures IncrementTimes(m, key, now, n)[key] == Status(n, now)
  {
    if n > 1 {
      IncrementCountsEachCall(m, key, now, n - 1);
    }
  }
}
