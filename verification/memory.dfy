/** The older in-process store of internal/stores (type `Memory`).

    Its `Get` and `Reset` are the same code as `MemoryStore`'s and are
    defined by them. It differs in one place: `Increment` on an unknown key
    resets it, leaving count 0 rather than 1. */
module Memory {
  import opened GoInt
  import opened Status
  import opened Frames
  import MemoryStore

  type Statuses = map<string, Status>

  /** Unconditionally replaces the key's status with a fresh one and returns it. */
  function Reset(m: Statuses, key: string, now: int): (r: Reply<Statuses>)
    ensures r.status.count == 0 && r.status.start == now
    ensures key in r.state && r.state[key] == r.status
    ensures OnlyKeyChanged(m, r.state, key)
  {
    MemoryStore.Reset(m, key, now)
  }

  /** The key's status; an unknown key is first created by `Reset`. */
  function Get(m: Statuses, key: string, now: int): (r: Reply<Statuses>)
    ensures key in r.state && r.state[key] == r.status
    ensures key in m ==> r.status == m[key] && r.state == m
    ensures key !in m ==> r.status.count == 0 && r.status.start == now
    ensures OnlyKeyChanged(m, r.state, key)
  {
    MemoryStore.Get(m, key, now)
  }

  /** Counts one request against a known key; an unknown key is only reset. */
  function Increment(m: Statuses, key: string, now: int): (r: Reply<Statuses>)
    ensures key in r.state && r.state[key] == r.status
    ensures key in m ==> r.status == Status(Inc(m[key].count), m[key].start)
    ensures key !in m ==> r.status.count == 0 && r.status.start == now
    ensures OnlyKeyChanged(m, r.state, key)
  {
    if key !in m then Reset(m, key, now)
    else
      var s := m[key].(count := Inc(m[key].count));
      Reply(s, m[key := s])
  }

  /** Their `Increment`s agree exactly on the keys already stored. */
  lemma IncrementAgreesIffKnown(m: Statuses, key: string, now: int)
    ensures Increment(m, key, now) == MemoryStore.Increment(m, key, now) <==> key in m
  {
    if key !in m {
      assert Increment(m, key, now).status.count == 0;
      assert MemoryStore.Increment(m, key, now).status.count == 1;
    }
  }
}
