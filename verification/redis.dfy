/** The remote store of internal/stores/redis.

    The Redis client becomes a map from key to stored text; a key that is
    absent stands for every client error on read. A status is stored as
    "<count>::<timestamp>" and every read parses that text afresh. */
module Redis {
  import opened Wrappers
  import opened GoInt
  import opened Status
  import opened Frames
  import Decimal
  import Clock

  type Client = map<string, string>

  /** The message Go's runtime panics with when `parseValue` indexes the
      missing second field. */
  const IndexPanic: string := "runtime error: index out of range [1] with length 1"

  /** `strings.Split(s, "::")`: the text between successive leftmost,
      non-overlapping occurrences of "::"; never an empty list. */
  function Split(s: string): (parts: seq<string>)
    ensures |parts| >= 1
    decreases |s|
  {
    if |s| < 2 then [s]
    else if s[0] == ':' && s[1] == ':' then [""] + Split(s[2..])
    else
      var rest := Split(s[1..]);
      [[s[0]] + rest[0]] + rest[1..]
  }

  /** No "::" occurs anywhere in the text. */
  predicate NoSeparator(s: string)
  {
    forall i :: 0 <= i < |s| - 1 ==> !(s[i] == ':' && s[i + 1] == ':')
  }

  /** Text that survives intact as the first field before a following "::":
      it holds no "::" and does not end in a colon (which would pair with
      the separator's first colon instead). */
  predicate WholeField(s: string)
  {
    NoSeparator(s) && (|s| == 0 || s[|s| - 1] != ':')
  }

  lemma NoSeparatorTail(s: string)
    requires |s| >= 1 && NoSeparator(s)
    ensures NoSeparator(s[1..])
  {
    forall i | 0 <= i < |s[1..]| - 1
      ensures !(s[1..][i] == ':' && s[1..][i + 1] == ':')
    {
      assert s[1..][i] == s[i + 1] && s[1..][i + 1] == s[i + 2];
    }
  }

  /** Text without a separator is a single field. */
  lemma {:induction false} SplitNoSeparator(s: string)
    requires NoSeparator(s)
    ensures Split(s) == [s]
  {
    if |s| >= 2 {
      assert !(s[0] == ':' && s[1] == ':');
      NoSeparatorTail(s);
      SplitNoSeparator(s[1..]);
      assert [s[0]] + s[1..] == s;
    }
  }

  /** A whole first field is cut off at the first "::". */
  lemma {:induction false} SplitFirstField(a: string, b: string)
    requires WholeField(a)
    ensures Split(a + "::" + b) == [a] + Split(b)
  {
    var s := a + "::" + b;
    if |a| == 0 {
      assert s[2..] == b;
    } else if |a| == 1 {
      assert s[0] == a[0] != ':';
      assert s[1..] == "::" + b && s[1..][2..] == b;
      assert Split(s[1..]) == [""] + Split(b);
      assert [s[0]] + "" == a;
    } else {
      assert !(s[0] == ':' && s[1] == ':');
      assert s[1..] == a[1..] + "::" + b;
      NoSeparatorTail(a);
      SplitFirstField(a[1..], b);
      assert [s[0]] + a[1..] == a;
    }
  }

  /** `formatStatus`: the decimal count, "::", and the start's timestamp text. */
  function FormatStatus(s: Status): (v: string)
    ensures Split(v) == [Decimal.FormatInt(s.count), Clock.FormatTime(s.start)]
  {
    var v := Decimal.FormatInt(s.count) + "::" + Clock.FormatTime(s.start);
    SplitFirstField(Decimal.FormatInt(s.count), Clock.FormatTime(s.start));
    SplitNoSeparator(Clock.FormatTime(s.start));
    v
  }

  /** `parseValue`: starts from a fresh status at `now`; a first field that is
      not a count returns it as is; otherwise the count is kept, and a second
      field that is a timestamp replaces the start. A count with no second
      field indexes past the split and panics. */
  function ParseValue(value: string, now: int): (r: Result<Status>)
    ensures r.Panic? ==> |Split(value)| == 1
    ensures r.Ok? && r.value.start != now ==> Clock.WholeSecond(r.value.start)
  {
    var data := Split(value);
    match Decimal.Atoi(data[0])
    case None => Ok(NewStatus(now))
    case Some(count) =>
      if |data| < 2 then Panic(IndexPanic)
      else
        match Clock.ParseTime(data[1])
        case None => Ok(NewStatus(now).(count := count))
        case Some(startedAt) => Ok(Status(count, startedAt))
  }

  /** Unconditionally stores a fresh status and returns it. The stored text
      keeps only the whole second of `now`; the returned status keeps all of it. */
  function Reset(client: Client, key: string, now: int): (r: Reply<Client>)
    ensures r.status.count == 0 && r.status.start == now
    ensures key in r.state && r.state[key] == FormatStatus(r.status)
    ensures OnlyKeyChanged(client, r.state, key)
  {
    var s := NewStatus(now);
    Reply(s, client[key := FormatStatus(s)])
  }

  /** The key's status parsed from its stored text; a key the client cannot
      read is first created by `Reset`. Parsing never writes back. */
  function Get(client: Client, key: string, now: int): (r: Result<Reply<Client>>)
    ensures key !in client ==> r.Ok? && r.value.status == NewStatus(now)
    ensures key !in client ==> r.value.state == client[key := FormatStatus(NewStatus(now))]
    ensures key in client && r.Ok? ==> r.value.state == client
    ensures r.Panic? ==> key in client && |Split(client[key])| == 1
    ensures key in client ==> (r.Ok? <==> ParseValue(client[key], now).Ok?)
    ensures key in client && r.Ok? ==> r.value.status == ParseValue(client[key], now).value
  {
    if key !in client then Ok(Reset(client, key, now))
    else
      match ParseValue(client[key], now)
      case Panic(reason) => Panic(reason)
      case Ok(s) => Ok(Reply(s, client))
  }

  /** Read, add one, write back, read again. The write keeps the start that
      was read; the answer is the re-read, so its start is a whole second. */
  function Increment(client: Client, key: string, now: int): (r: Result<Reply<Client>>)
    ensures r.Panic? <==> Get(client, key, now).Panic?
    ensures r.Ok? ==>
      var g := Get(client, key, now).value.status;
      && r.value.state == client[key := FormatStatus(Status(Inc(g.count), g.start))]
      && r.value.status == Status(Inc(g.count), Clock.TruncSec(g.start))
  {
    match Get(client, key, now)
    case Panic(reason) => Panic(reason)
    case Ok(g) =>
      var s := g.status.(count := Inc(g.status.count));
      var written := g.state[key := FormatStatus(s)];
      ParseRoundTrip(s, now);
      Get(written, key, now)
  }

  /** Parsing formatted text restores the count and the whole second of the start. */
  lemma ParseRoundTrip(s: Status, now: int)
    ensures ParseValue(FormatStatus(s), now) == Ok(Status(s.count, Clock.TruncSec(s.start)))
  {
    Decimal.AtoiFormatRoundTrip(s.count);
    Clock.TimeRoundTrip(s.start);
  }

  /** For a start with whole-second precision the round trip is exact. */
  lemma ParseRoundTripWholeSecond(s: Status, now: int)
    requires Clock.WholeSecond(s.start)
    ensures ParseValue(FormatStatus(s), now) == Ok(s)
  {
    ParseRoundTrip(s, now);
  }

  /** A first field that is not a count yields a wholly fresh status, with or
      without a separator after it. */
  lemma ParseBadCount(head: string, rest: string, now: int)
    requires WholeField(head) && Decimal.Atoi(head).None?
    ensures ParseValue(head + "::" + rest, now) == Ok(NewStatus(now))
    ensures ParseValue(head, now) == Ok(NewStatus(now))
  {
    SplitFirstField(head, rest);
    SplitNoSeparator(head);
  }

  /** A count followed by text that is not a timestamp keeps the count and
      starts the window at `now`. */
  lemma ParseBadTimestamp(head: string, rest: string, now: int)
    requires Decimal.Atoi(head).Some?
    requires Clock.ParseTime(Split(rest)[0]).None?
    ensures ParseValue(head + "::" + rest, now) == Ok(Status(Decimal.Atoi(head).value, now))
  {
    SplitFirstField(head, rest);
  }

  /** Text with no separator panics exactly when it is a valid count. */
  lemma ParseMissingSeparator(head: string, now: int)
    requires NoSeparator(head)
    ensures ParseValue(head, now).Panic? <==> Decimal.Atoi(head).Some?
  {
    SplitNoSeparator(head);
  }

  /** Two statuses have the same stored text exactly when they agree on the
      count and on the whole second of the start. */
  lemma FormatStatusInjective(a: Status, b: Status)
    ensures FormatStatus(a) == FormatStatus(b) <==>
              a.count == b.count && Clock.TruncSec(a.start) == Clock.TruncSec(b.start)
  {
    ParseRoundTrip(a, 0);
    ParseRoundTrip(b, 0);
    if a.count == b.count && Clock.TruncSec(a.start) == Clock.TruncSec(b.start) {
      Clock.FormatTimeSameSecond(a.start, b.start);
    }
  }

  /** A `Get` after `Reset` sees count 0 but only the whole second of the
      start `Reset` returned. */
  lemma ResetThenGetTruncates(client: Client, key: string, now: int, later: int)
    ensures var r := Reset(client, key, now);
            Get(r.state, key, later) == Ok(Reply(Status(0, Clock.TruncSec(now)), r.state))
  {
    ParseRoundTrip(NewStatus(now), later);
  }

  /** An unknown key incremented once has count 1 in the current second. */
  lemma IncrementUnknownKey(client: Client, key: string, now: int)
    requires key !in client
    ensures Increment(client, key, now).Ok?
    ensures Increment(client, key, now).value.status == Status(1, Clock.TruncSec(now))
  {
  }

  /** A stored status, incremented, gains one and keeps its start. */
  lemma IncrementStored(client: Client, key: string, s: Status, now: int)
    requires key in client && client[key] == FormatStatus(s) && Clock.WholeSecond(s.start)
    ensures Increment(client, key, now) ==
              Ok(Reply(Status(Inc(s.count), s.start), client[key := FormatStatus(Status(Inc(s.count), s.start))]))
  {
    ParseRoundTripWholeSecond(s, now);
  }

  /** A second `Get` at the same instant changes nothing further and sees the
      same count; the start agrees up to the whole second for a key the first
      `Get` created. */
  lemma GetAgain(client: Client, key: string, now: int)
    requires Get(client, key, now).Ok?
    ensures var g := Get(client, key, now).value;
            && Get(g.state, key, now).Ok?
            && Get(g.state, key, now).value.state == g.state
            && Get(g.state, key, now).value.status.count == g.status.count
            && Get(g.state, key, now).value.status.start ==
                 (if key in client then g.status.start else Clock.TruncSec(g.status.start))
  {
    if key !in client {
      ParseRoundTrip(NewStatus(now), now);
    }
  }
}
