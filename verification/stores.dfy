/** The `Store` interface the limiter is written against (pkg/limiter),
    with its three implementations as the cases of one datatype. */
module Stores {
  import opened Wrappers
  import opened GoInt
  import opened Status
  import Frames
  import Clock
  import MemoryStore
  import Memory
  import Redis

  datatype Store =
    | MemoryStoreBacked(statuses: map<string, Status>)
    | MemoryBacked(statuses: map<string, Status>)
    | RedisBacked(client: Redis.Client)

  /** The store holds an entry for `key`. */
  predicate Has(s: Store, key: string)
  {
    match s
    case MemoryStoreBacked(m) => key in m
    case MemoryBacked(m) => key in m
    case RedisBacked(c) => key in c
  }

  /** Same implementation, no entry removed, and only the entry for `key` may differ. */
  predicate OnlyKeyChanged(before: Store, after: Store, key: string)
  {
    match (before, after)
    case (MemoryStoreBacked(a), MemoryStoreBacked(b)) => Frames.OnlyKeyChanged(a, b, key)
    case (MemoryBacked(a), MemoryBacked(b)) => Frames.OnlyKeyChanged(a, b, key)
    case (RedisBacked(a), RedisBacked(b)) => Frames.OnlyKeyChanged(a, b, key)
    case _ => false
  }

  /** The precision at which a store keeps a window start: the remote store
      keeps whole seconds, the in-process stores keep the instant itself. */
  function Resolution(s: Store, t: int): int
  {
    if s.RedisBacked? then Clock.TruncSec(t) else t
  }

  /** The entry for `key` is exactly `st` (as text, for the remote store,
      which can only hold whole-second starts). */
  predicate Holds(s: Store, key: string, st: Status)
  {
    match s
    case MemoryStoreBacked(m) => key in m && m[key] == st
    case MemoryBacked(m) => key in m && m[key] == st
    case RedisBacked(c) => key in c && c[key] == Redis.FormatStatus(st) && Clock.WholeSecond(st.start)
  }

  function Reset(s: Store, key: string, now: int): (r: Reply<Store>)
    ensures r.status == NewStatus(now)
    ensures Holds(r.state, key, Status(0, Resolution(s, now)))
    ensures OnlyKeyChanged(s, r.state, key)
  {
    match s
    case MemoryStoreBacked(m) =>
      var x := MemoryStore.Reset(m, key, now); Reply(x.status, MemoryStoreBacked(x.state))
    case MemoryBacked(m) =>
      var x := Memory.Reset(m, key, now); Reply(x.status, MemoryBacked(x.state))
    case RedisBacked(c) =>
      var x := Redis.Reset(c, key, now);
      Redis.FormatStatusInjective(NewStatus(now), Status(0, Clock.TruncSec(now)));
      Reply(x.status, RedisBacked(x.state))
  }

  /** Only the remote store can fail, and only on stored text it cannot parse. */
  function Get(s: Store, key: string, now: int): (r: Result<Reply<Store>>)
    ensures r.Panic? ==> s.RedisBacked? && Has(s, key)
    ensures !Has(s, key) ==> r.Ok? && r.value.status == NewStatus(now)
    ensures !Has(s, key) ==> Holds(r.value.state, key, Status(0, Resolution(s, now)))
    ensures r.Ok? ==> Has(r.value.state, key) && OnlyKeyChanged(s, r.value.state, key)
  {
    match s
    case MemoryStoreBacked(m) =>
      var x := MemoryStore.Get(m, key, now); Ok(Reply(x.status, MemoryStoreBacked(x.state)))
    case MemoryBacked(m) =>
      var x := Memory.Get(m, key, now); Ok(Reply(x.status, MemoryBacked(x.state)))
    case RedisBacked(c) =>
      match Redis.Get(c, key, now)
      case Panic(reason) => Panic(reason)
      case Ok(x) =>
        Redis.FormatStatusInjective(NewStatus(now), Status(0, Clock.TruncSec(now)));
        Ok(Reply(x.status, RedisBacked(x.state)))
  }

  /** The status a `Get` at `now` would report; `None` if it would panic. */
  function Seen(s: Store, key: string, now: int): Option<Status>
  {
    match Get(s, key, now)
    case Ok(g) => Some(g.status)
    case Panic(_) => None
  }

  /** Adds one to the count a `Get` reports, except that the older in-process
      store only resets a key it does not hold. A later `Get` sees the result. */
  function Increment(s: Store, key: string, now: int): (r: Result<Reply<Store>>)
    ensures r.Panic? <==> Get(s, key, now).Panic?
    ensures r.Ok? ==> Has(r.value.state, key) && OnlyKeyChanged(s, r.value.state, key)
    ensures r.Ok? && (Has(s, key) || !s.MemoryBacked?) ==>
              r.value.status.count == Inc(Get(s, key, now).value.status.count)
    ensures r.Ok? ==> Seen(r.value.state, key, now) == Some(r.value.status)
  {
    match s
    case MemoryStoreBacked(m) =>
      var x := MemoryStore.Increment(m, key, now); Ok(Reply(x.status, MemoryStoreBacked(x.state)))
    case MemoryBacked(m) =>
      var x := Memory.Increment(m, key, now); Ok(Reply(x.status, MemoryBacked(x.state)))
    case RedisBacked(c) =>
      match Redis.Increment(c, key, now)
      case Panic(reason) => Panic(reason)
      case Ok(x) =>
        var g := Redis.Get(c, key, now).value.status;
        Redis.ParseRoundTrip(Status(Inc(g.count), g.start), now);
        Ok(Reply(x.status, RedisBacked(x.state)))
  }

  lemma OnlyKeyChangedTransitive(a: Store, b: Store, c: Store, key: string)
    requires OnlyKeyChanged(a, b, key) && OnlyKeyChanged(b, c, key)
    ensures OnlyKeyChanged(a, c, key)
  {
    match (a, b, c)
    case (MemoryStoreBacked(x), MemoryStoreBacked(y), MemoryStoreBacked(z)) =>
      Frames.OnlyKeyChangedTransitive(x, y, z, key);
    case (MemoryBacked(x), MemoryBacked(y), MemoryBacked(z)) =>
      Frames.OnlyKeyChangedTransitive(x, y, z, key);
    case (RedisBacked(x), RedisBacked(y), RedisBacked(z)) =>
      Frames.OnlyKeyChangedTransitive(x, y, z, key);
  }

  /** A stored status is what every `Get` reports, at any instant, without writing. */
  lemma HoldsGet(s: Store, key: string, st: Status, now: int)
    requires Holds(s, key, st)
    ensures Get(s, key, now) == Ok(Reply(st, s))
  {
    if s.RedisBacked? {
      Redis.ParseRoundTripWholeSecond(st, now);
    }
  }

  /** A second `Get` at the same instant reports the same count and writes nothing. */
  lemma GetAgain(s: Store, key: string, now: int)
    requires Get(s, key, now).Ok?
    ensures var g := Get(s, key, now).value;
            && Get(g.state, key, now).Ok?
            && Get(g.state, key, now).value.state == g.state
            && Get(g.state, key, now).value.status.count == g.status.count
  {
    if s.RedisBacked? {
      Redis.GetAgain(s.client, key, now);
    }
  }

  /** Incrementing a stored status adds one and keeps its start. */
  lemma IncrementHolds(s: Store, key: string, st: Status, now: int)
    requires Holds(s, key, st)
    ensures Increment(s, key, now).Ok?
    ensures Increment(s, key, now).value.status.count == Inc(st.count)
    ensures Holds(Increment(s, key, now).value.state, key, Status(Inc(st.count), st.start))
  {
    HoldsGet(s, key, st, now);
    if s.RedisBacked? {
      Redis.IncrementStored(s.client, key, st, now);
    }
  }

  /** On a key the store has never seen, `Get` and `Reset` report count 0 and
      `Increment` count 1, except the older in-process store's `Increment`,
      which reports 0. */
  lemma UnknownKeyCounts(s: Store, key: string, now: int)
    requires !Has(s, key)
    ensures Get(s, key, now).value.status.count == 0
    ensures Reset(s, key, now).status.count == 0
    ensures Increment(s, key, now).Ok?
    ensures Increment(s, key, now).value.status.count == (if s.MemoryBacked? then 0 else 1)
  {
  }
}
