/** The per-key counting record (pkg/status). */
module Status {
  import opened GoInt
  import Clock

  /** Requests counted in the current window and the instant it began. */
  datatype Status = Status(count: Int64, start: int)

  /** What every store operation hands back: a status and the store's next state. */
  datatype Reply<S> = Reply(status: Status, state: S)

  /** A fresh window at `now` with nothing counted. */
  function NewStatus(now: int): (s: Status)
    ensures s.count == 0 && s.start == now
  {
    Status(0, now)
  }

  predicate ReachedLimit(s: Status, limit: Int64)
  {
    s.count >= limit
  }

  /** The window is over once `now` is strictly after its start plus `d`. */
  predicate IsExpired(s: Status, now: int, d: Int64)
  {
    now > s.start + d
  }

  /** Reaching the limit includes equality; one below it is not reached. */
  lemma ReachedLimitBoundary(s: Status, limit: Int64)
    ensures s.count == limit ==> ReachedLimit(s, limit)
    ensures s.count == limit - 1 ==> !ReachedLimit(s, limit)
  {
  }

  /** Counting more never un-reaches a limit. */
  lemma ReachedLimitMonotone(a: Status, b: Status, limit: Int64)
    requires a.count <= b.count
    ensures ReachedLimit(a, limit) ==> ReachedLimit(b, limit)
  {
  }

  /** A window that ends exactly now is still open; one nanosecond later it is over. */
  lemma ExpiryBoundary(s: Status, d: Int64)
    ensures !IsExpired(s, s.start + d, d)
    ensures IsExpired(s, s.start + d + 1, d)
  {
  }

  /** A status begun one minute before `t0`, checked at any later instant,
      is over for a one-minute window and open for a one-hour window. */
  lemma MinuteAgoExample(c: Int64, t0: int, now: int)
    requires t0 < now <= t0 + Clock.Hour - Clock.Minute
    ensures IsExpired(Status(c, t0 - Clock.Minute), now, Clock.Minute as Int64)
    ensures !IsExpired(Status(c, t0 - Clock.Minute), now, Clock.Hour as Int64)
  {
  }

  /** With a zero window a status is over as soon as the clock moved past its start. */
  lemma ZeroWindow(s: Status, now: int)
    ensures IsExpired(s, now, 0) <==> now > s.start
  {
  }

  /** A fresh status has not reached any positive limit and is open for any
      non-negative window at the instant it was made. */
  lemma FreshStatusOpen(now: int, limit: Int64, d: Int64)
    requires limit >= 1 && d >= 0
    ensures !ReachedLimit(NewStatus(now), limit)
    ensures !IsExpired(NewStatus(now), now, d)
  {
  }
}
