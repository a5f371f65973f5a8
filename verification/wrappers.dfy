/** Failure-carrying values shared by every module of the model. */
module Wrappers {

  /** A value that may be absent: a missing key, a failed parse. */
  datatype Option<+T> = None | Some(value: T)

  /** The outcome of an operation that can abort the request with a Go
      runtime panic (an index out of range, for instance). */
  datatype Result<+T> = Ok(value: T) | Panic(reason: string)
}

/** Framing facts about a key-value map that one operation touched at one key. */
module Frames {

  /** `after` differs from `before` at most at `key`, and no key was removed. */
  predicate OnlyKeyChanged<V(==)>(before: map<string, V>, after: map<string, V>, key: string)
  {
    && before.Keys <= after.Keys
    && after.Keys <= before.Keys + {key}
    && forall k :: k in before && k != key ==> after[k] == before[k]
  }

  lemma OnlyKeyChangedTransitive<V>(a: map<string, V>, b: map<string, V>, c: map<string, V>, key: string)
    requires OnlyKeyChanged(a, b, key) && OnlyKeyChanged(b, c, key)
    ensures OnlyKeyChanged(a, c, key)
  {
  }
}
