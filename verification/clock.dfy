/** Instants and the stored timestamp text.

    An instant is an integer count of nanoseconds, supplied by the caller
    wherever the program reads the wall clock. The section 5.6 (RFC 3339)
    date-time text the remote store keeps is modelled by an injective
    whole-second encoding: like `time.Format(time.RFC3339)` it drops the
    fraction of a second, and like it it never contains "::". */
module Clock {
  import opened Wrappers
  import Decimal

  const Second: int := 1_000_000_000
  const Minute: int := 60 * Second
  const Hour: int := 60 * Minute

  /** The instant rounded down to its whole second (the calendar second it
      falls in, also before the epoch). */
  function TruncSec(t: int): (r: int)
    ensures r <= t < r + Second
    ensures r % Second == 0
  {
    (t / Second) * Second
  }

  predicate WholeSecond(t: int)
  {
    t % Second == 0
  }

  /** The timestamp text of an instant, at whole-second precision. */
  function FormatTime(t: int): (s: string)
    ensures |s| >= 1 && Decimal.NoColon(s)
  {
    Decimal.FormatInt(t / Second)
  }

  /** Reads timestamp text back; `None` for text that is not a timestamp. */
  function ParseTime(s: string): (r: Option<int>)
    ensures r.Some? ==> WholeSecond(r.value)
  {
    match Decimal.ParseSigned(s)
    case Some(secs) => Some(secs * Second)
    case None => None
  }

  /** Formatting then parsing an instant yields its whole second. */
  lemma TimeRoundTrip(t: int)
    ensures ParseTime(FormatTime(t)) == Some(TruncSec(t))
  {
    Decimal.ParseFormatRoundTrip(t / Second);
  }

  /** Two instants have the same text exactly when they share a second. */
  lemma FormatTimeSameSecond(a: int, b: int)
    ensures FormatTime(a) == FormatTime(b) <==> TruncSec(a) == TruncSec(b)
  {
    TimeRoundTrip(a);
    TimeRoundTrip(b);
  }
}
