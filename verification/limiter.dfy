/** The fixed-window limiter of pkg/limiter: a store bound to a limit and a
    window length. */
module Limiter {
  import opened Wrappers
  import opened GoInt
  import opened Status
  import Stores

  datatype Limiter = Limiter(store: Stores.Store, limit: Int64, duration: Int64)

  /** Whether a request was refused, and the limiter with its store as the
      call left it. */
  datatype Verdict = Verdict(limited: bool, next: Limiter)

  /** Binds the policy to the store; nothing is read or written. */
  function NewLimiter(store: Stores.Store, limit: Int64, duration: Int64): (l: Limiter)
    ensures l.store == store && l.limit == limit && l.duration == duration
  {
    Limiter(store, limit, duration)
  }

  /** The store's `Get`: an unknown key comes back as a fresh count-0 status. */
  function GetStatus(l: Limiter, key: string, now: int): (r: Result<Reply<Limiter>>)
    ensures r.Ok? <==> Stores.Get(l.store, key, now).Ok?
    ensures r.Ok? ==> r.value.status == Stores.Get(l.store, key, now).value.status
    ensures r.Ok? ==> r.value.state == l.(store := Stores.Get(l.store, key, now).value.state)
    ensures !Stores.Has(l.store, key) ==> r.Ok? && r.value.status == NewStatus(now)
  {
    match Stores.Get(l.store, key, now)
    case Panic(reason) => Panic(reason)
    case Ok(g) => Ok(Reply(g.status, l.(store := g.state)))
  }

  /** Reads the key's status, starts a new window if the current one is over,
      refuses without counting once the limit is reached, and otherwise
      counts the request and lets it through.

      Against the status a `Get` reported before the call, with its count
      taken as 0 when its window was over: the request is refused exactly
      when that count has reached the limit; a refused request leaves that
      count, an admitted one adds exactly one; no other key changes. */
  function ShouldLimit(l: Limiter, key: string, now: int): (r: Result<Verdict>)
    ensures r.Panic? <==> Stores.Get(l.store, key, now).Panic?
    ensures r.Ok? ==> r.value.next.limit == l.limit && r.value.next.duration == l.duration
    ensures r.Ok? ==> Stores.OnlyKeyChanged(l.store, r.value.next.store, key)
    ensures r.Ok? ==>
      var before := Stores.Get(l.store, key, now).value.status;
      var c := if IsExpired(before, now, l.duration) then 0 else before.count;
      && r.value.limited == (c >= l.limit)
      && Stores.Seen(r.value.next.store, key, now).Some?
      && Stores.Seen(r.value.next.store, key, now).value.count == (if r.value.limited then c else c + 1)
  {
    match Stores.Get(l.store, key, now)
    case Panic(reason) => Panic(reason)
    case Ok(g) =>
      Stores.GetAgain(l.store, key, now);
      var w :=
        if IsExpired(g.status, now, l.duration) then
          var x := Stores.Reset(g.state, key, now);
          Stores.HoldsGet(x.state, key, Status(0, Stores.Resolution(g.state, now)), now);
          Stores.OnlyKeyChangedTransitive(l.store, g.state, x.state, key);
          x
        else g;
      if ReachedLimit(w.status, l.limit) then Ok(Verdict(true, l.(store := w.state)))
      else
        var i := Stores.Increment(w.state, key, now).value;
        Stores.OnlyKeyChangedTransitive(l.store, w.state, i.state, key);
        Ok(Verdict(false, l.(store := i.state)))
  }

  /** A key whose window is still open: the request is refused exactly when
      the stored count has reached the limit; a refused request leaves the
      entry as it was, an admitted one adds one and keeps the start. */
  lemma InWindowStep(l: Limiter, key: string, st: Status, now: int)
    requires Stores.Holds(l.store, key, st) && !IsExpired(st, now, l.duration)
    ensures ShouldLimit(l, key, now).Ok?
    ensures ShouldLimit(l, key, now).value.limited == (st.count >= l.limit)
    ensures Stores.Holds(ShouldLimit(l, key, now).value.next.store, key,
                         if st.count >= l.limit then st else Status(st.count + 1, st.start))
  {
    Stores.HoldsGet(l.store, key, st, now);
    if st.count < l.limit {
      Stores.IncrementHolds(l.store, key, st, now);
    }
  }

  /** A key whose window is over gets a new window at `now` (at the store's
      precision) holding this request alone. */
  lemma ExpiredWindowRolls(l: Limiter, key: string, st: Status, now: int)
    requires Stores.Holds(l.store, key, st) && IsExpired(st, now, l.duration) && l.limit >= 1
    ensures ShouldLimit(l, key, now).Ok?
    ensures !ShouldLimit(l, key, now).value.limited
    ensures Stores.Holds(ShouldLimit(l, key, now).value.next.store, key,
                         Status(1, Stores.Resolution(l.store, now)))
  {
    Stores.HoldsGet(l.store, key, st, now);
    var x := Stores.Reset(l.store, key, now);
    Stores.IncrementHolds(x.state, key, Status(0, Stores.Resolution(l.store, now)), now);
  }

  /** A key never seen before is admitted and ends with count 1 in a window
      starting now (at the store's precision). */
  lemma UnknownKeyAdmitted(l: Limiter, key: string, now: int)
    requires !Stores.Has(l.store, key) && l.limit >= 1
    ensures ShouldLimit(l, key, now).Ok?
    ensures !ShouldLimit(l, key, now).value.limited
    ensures Stores.Holds(ShouldLimit(l, key, now).value.next.store, key,
                         Status(1, Stores.Resolution(l.store, now)))
  {
    var g := Stores.Get(l.store, key, now).value;
    if IsExpired(g.status, now, l.duration) {
      var x := Stores.Reset(g.state, key, now);
      Stores.IncrementHolds(x.state, key, Status(0, Stores.Resolution(l.store, now)), now);
    } else {
      Stores.IncrementHolds(g.state, key, Status(0, Stores.Resolution(l.store, now)), now);
    }
  }

  /** With a positive limit, a count within the limit stays within it. */
  lemma LimitBoundPreserved(l: Limiter, key: string, now: int)
    requires l.limit >= 1
    requires Stores.Seen(l.store, key, now).Some? && Stores.Seen(l.store, key, now).value.count <= l.limit
    ensures ShouldLimit(l, key, now).Ok?
    ensures Stores.Seen(ShouldLimit(l, key, now).value.next.store, key, now).value.count <= l.limit
  {
  }

  /** Every other key reads back exactly as before, at any instant. */
  lemma OtherKeysUnaffected(l: Limiter, key: string, other: string, now: int, later: int)
    requires other != key && ShouldLimit(l, key, now).Ok?
    ensures Stores.Seen(ShouldLimit(l, key, now).value.next.store, other, later) == Stores.Seen(l.store, other, later)
  {
    var after := ShouldLimit(l, key, now).value.next.store;
    assert Stores.OnlyKeyChanged(l.store, after, key);
  }

  /** The verdicts of consecutive requests for one key, and the limiter after them. */
  datatype Replayed = Replayed(verdicts: seq<bool>, last: Limiter)

  /** Requests for `key` arriving at the given instants, one after another. */
  function Replay(l: Limiter, key: string, times: seq<int>): (r: Result<Replayed>)
    ensures r.Ok? ==> |r.value.verdicts| == |times|
    ensures r.Ok? ==> r.value.last.limit == l.limit && r.value.last.duration == l.duration
    decreases |times|
  {
    if |times| == 0 then Ok(Replayed([], l))
    else
      match ShouldLimit(l, key, times[0])
      case Panic(reason) => Panic(reason)
      case Ok(v) =>
        match Replay(v.next, key, times[1..])
        case Panic(reason) => Panic(reason)
        case Ok(rest) => Ok(Replayed([v.limited] + rest.verdicts, rest.last))
  }

  /** One request followed by the rest. */
  lemma ReplayStep(l: Limiter, key: string, times: seq<int>)
    requires |times| > 0 && ShouldLimit(l, key, times[0]).Ok?
    requires Replay(ShouldLimit(l, key, times[0]).value.next, key, times[1..]).Ok?
    ensures var v := ShouldLimit(l, key, times[0]).value;
            var rest := Replay(v.next, key, times[1..]).value;
            Replay(l, key, times) == Ok(Replayed([v.limited] + rest.verdicts, rest.last))
  {
  }

  /** Within one open window the requests are admitted until the count
      reaches the limit, and refused from then on without being counted. */
  lemma {:induction false} ReplayInWindow(l: Limiter, key: string, st: Status, times: seq<int>)
    requires Stores.Holds(l.store, key, st) && st.count <= l.limit
    requires forall i :: 0 <= i < |times| ==> times[i] <= st.start + l.duration
    ensures Replay(l, key, times).Ok?
    ensures forall i :: 0 <= i < |times| ==>
              Replay(l, key, times).value.verdicts[i] == (st.count + i >= l.limit)
    ensures var n := if st.count + |times| <= l.limit then st.count + |times| else l.limit as int;
            Stores.Holds(Replay(l, key, times).value.last.store, key, Status(n, st.start))
    decreases |times|
  {
    if |times| > 0 {
      InWindowStep(l, key, st, times[0]);
      var v := ShouldLimit(l, key, times[0]).value;
      var st' := if st.count >= l.limit then st else Status(st.count + 1, st.start);
      assert Stores.Holds(v.next.store, key, st');
      assert v.next.limit == l.limit && v.next.duration == l.duration;
      var tail := times[1..];
      assert forall i :: 0 <= i < |tail| ==> tail[i] == times[i + 1];
      ReplayInWindow(v.next, key, st', tail);
      ReplayStep(l, key, times);
      var rest := Replay(v.next, key, tail).value;
      var all := [v.limited] + rest.verdicts;
      assert Replay(l, key, times).value.verdicts == all;
      var n := if st.count + |times| <= l.limit then st.count + |times| else l.limit as int;
      var n' := if st'.count + |tail| <= l.limit then st'.count + |tail| else l.limit as int;
      assert n' == n;
      assert Replay(l, key, times).value.last == rest.last;
      assert Stores.Holds(rest.last.store, key, Status(n', st'.start));
      forall i | 0 <= i < |times|
        ensures all[i] == (st.count + i >= l.limit)
      {
        if i > 0 {
          assert all[i] == rest.verdicts[i - 1];
        }
      }
    }
  }

  /** From a key never seen, with a positive limit and every request inside
      the window the first one opens, the first `limit` requests are admitted
      and every later one refused; the count ends at the smaller of the
      number of requests and the limit. */
  lemma FreshKeyAdmitsExactlyLimit(l: Limiter, key: string, times: seq<int>)
    requires !Stores.Has(l.store, key) && l.limit >= 1 && |times| >= 1
    requires forall i :: 0 <= i < |times| ==> times[i] <= Stores.Resolution(l.store, times[0]) + l.duration
    ensures Replay(l, key, times).Ok?
    ensures forall i :: 0 <= i < |times| ==> Replay(l, key, times).value.verdicts[i] == (i >= l.limit)
    ensures var n := if |times| <= l.limit then |times| else l.limit as int;
            Stores.Holds(Replay(l, key, times).value.last.store, key,
                         Status(n, Stores.Resolution(l.store, times[0])))
  {
    UnknownKeyAdmitted(l, key, times[0]);
    var v := ShouldLimit(l, key, times[0]).value;
    var st := Status(1, Stores.Resolution(l.store, times[0]));
    assert Stores.Holds(v.next.store, key, st);
    assert v.next.limit == l.limit && v.next.duration == l.duration;
    var tail := times[1..];
    assert forall i :: 0 <= i < |tail| ==> tail[i] == times[i + 1];
    ReplayInWindow(v.next, key, st, tail);
    ReplayStep(l, key, times);
    var rest := Replay(v.next, key, tail).value;
    var all := [v.limited] + rest.verdicts;
    assert Replay(l, key, times).value.verdicts == all;
    assert Replay(l, key, times).value.last == rest.last;
    var n := if |times| <= l.limit then |times| else l.limit as int;
    var n' := if st.count + |tail| <= l.limit then st.count + |tail| else l.limit as int;
    assert n' == n;
    forall i | 0 <= i < |times|
      ensures all[i] == (i >= l.limit)
    {
      if i > 0 {
        assert all[i] == rest.verdicts[i - 1];
      }
    }
  }

  /** With a zero window and a clock that moves forward between requests,
      every request opens a new window: all are admitted and the count is
      1 after each. */
  lemma {:induction false} ZeroWindowNeverAccumulates(l: Limiter, key: string, st: Status, times: seq<int>)
    requires Stores.Holds(l.store, key, st) && l.duration == 0 && l.limit >= 1
    requires |times| >= 1 ==> times[0] > st.start
    requires forall i :: 0 < i < |times| ==> times[i - 1] < times[i]
    ensures Replay(l, key, times).Ok?
    ensures forall i :: 0 <= i < |times| ==> !Replay(l, key, times).value.verdicts[i]
    ensures |times| >= 1 ==>
              Stores.Holds(Replay(l, key, times).value.last.store, key,
                           Status(1, Stores.Resolution(l.store, times[|times| - 1])))
    decreases |times|
  {
    if |times| > 0 {
      ExpiredWindowRolls(l, key, st, times[0]);
      var v := ShouldLimit(l, key, times[0]).value;
      var st' := Status(1, Stores.Resolution(l.store, times[0]));
      assert Stores.Holds(v.next.store, key, st');
      assert v.next.limit == l.limit && v.next.duration == l.duration;
      assert v.next.store.RedisBacked? == l.store.RedisBacked?;
      var tail := times[1..];
      assert forall i :: 0 <= i < |tail| ==> tail[i] == times[i + 1];
      ZeroWindowNeverAccumulates(v.next, key, st', tail);
      ReplayStep(l, key, times);
      var rest := Replay(v.next, key, tail).value;
      var all := [v.limited] + rest.verdicts;
      assert Replay(l, key, times).value.verdicts == all;
      forall i | 0 <= i < |times|
        ensures !all[i]
      {
        if i > 0 {
          assert all[i] == rest.verdicts[i - 1];
        }
      }
      if |tail| >= 1 {
        assert tail[|tail| - 1] == times[|times| - 1];
      }
    }
  }
}
