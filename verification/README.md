# Fixed-window rate limiter — Dafny model

A model of the engine of `go_rate_limiter`: the per-key `Status` record, the
three key-value stores behind the limiter's `Store` interface, the limiter's
`ShouldLimit` decision and the rate-limit middleware's per-request decision.
Everything is a pure function. The wall clock becomes an explicit integer
`now` (nanoseconds), every store is an immutable map threaded through the
calls, and a Go runtime panic becomes the `Panic` case of `Wrappers.Result`.

Files (one module per source file or component):

- `wrappers.dfy`: `Option`, `Result` and the `Frames.OnlyKeyChanged` framing predicate.
- `goint.dfy`: Go's 64-bit `int` and its wrap-around on `+= 1`.
- `decimal.dfy`: the `%d` verb and `strconv.Atoi`.
- `clock.dfy`: instants, truncation to whole seconds, and the stored timestamp text.
- `status.dfy`: `Status`, `NewStatus`, `ReachedLimit`, `IsExpired`.
- `memory_store.dfy`: `MemoryStore` (internal/stores/memory).
- `memory.dfy`: the older `Memory` store (internal/stores).
- `redis.dfy`: `RedisStore`, `formatStatus`, `parseValue` and `strings.Split`.
- `stores.dfy`: the `Store` interface as a datatype with one case per implementation.
- `limiter.dfy`: `Limiter`, `NewLimiter`, `GetStatus`, `ShouldLimit`, plus request sequences.
- `middleware.dfy`: `defaultKeyMapper`, the middleware decision and chains of middlewares.

Behaviours of the code that the model keeps even where they may look unintended:

- A stored value that is a valid count with no "::" makes `parseValue` index past the split and panic (`Redis.ParseMissingSeparator`). It does not fall back to a fresh status.
- `IsExpired` is strict. With a zero window a status is not expired when checked at the instant it was started, only once the clock has moved past it (`Status.ZeroWindow`). Within one `ShouldLimit` call the code itself never checks at that instant, because its clock moves between reads; the model's single `now` per call does (see `## Left out`).
- The older `Memory.Increment` would reset an unknown key to count 0, rather than create it with count 1, if it did not deadlock (`Memory.IncrementAgreesIffKnown`; see `## Left out`).
- `RedisStore.Reset` returns the full-precision start, but the stored text keeps only the whole second. A later `Get` therefore reports the truncated start (`Redis.ResetThenGetTruncates`).
- The middleware reads and sets the marker under the plain string key "rateLimitAllowed". pkg/middlewares/rate_limiter_test.go:86 sets it under the identifier `rateLimitAllowedKey`, which is declared outside the files this model covers, so whether it names the same key cannot be told. The model has one boolean marker field, `Request.rateLimitAllowed`.

## Model

| member | source | states |
|---|---|---|
| GoInt.Inc | internal/stores/memory/memory.go:40 | adding one to a Go int is exact below the maximum and wraps to the minimum at it |
| Decimal.FormatInt | internal/stores/redis/redis.go:14 | `%d` text is non-empty, has no colon, and starts with '-' exactly for negatives |
| Decimal.Atoi | internal/stores/redis/redis.go:81-84 | text is accepted exactly when it is an optionally signed decimal whose value fits in an int, and then yields that value |
| Decimal.ParseFormatRoundTrip | internal/stores/redis/redis.go:73-85 | parsing `%d` text gives back the number printed |
| Decimal.AtoiFormatRoundTrip | internal/stores/redis/redis.go:73-85 | `strconv.Atoi` accepts every Go int that `%d` prints and returns it |
| Decimal.FormatIntInjective | internal/stores/redis/redis.go:74 | different counts are stored as different text |
| Decimal.AtoiRejects | internal/stores/redis/redis.go:81-84 | empty text and text not starting with a sign or digit is not a count |
| Clock.TruncSec | internal/stores/redis/redis.go:74 | an instant is rounded down to the whole second it falls in |
| Clock.FormatTime | internal/stores/redis/redis.go:74 | timestamp text is non-empty and never contains "::" (the model's text is colon-free; real RFC 3339 text has single colons but no "::") |
| Clock.ParseTime | internal/stores/redis/redis.go:87 | a parsed timestamp is always a whole second |
| Clock.TimeRoundTrip | internal/stores/redis/redis.go:74-91 | formatting then parsing an instant yields its whole second |
| Clock.FormatTimeSameSecond | internal/stores/redis/redis.go:74 | two instants have the same text exactly when they share a second |
| Status.NewStatus | pkg/status/status.go:13-18 | a new status has count 0 and starts at `now` |
| Status.ReachedLimitBoundary | pkg/status/status.go:21-23 | the limit is reached at count = limit and not at limit - 1 |
| Status.ReachedLimitMonotone | pkg/status/status.go:22 | a higher count never un-reaches a limit |
| Status.ExpiryBoundary | pkg/status/status.go:26-28 | a window ending exactly now is open; one nanosecond later it is over |
| Status.MinuteAgoExample | pkg/status/status_test.go:24-28 | a status begun one minute before an earlier instant is expired for a minute and open for an hour |
| Status.ZeroWindow | pkg/status/status.go:27 | with a zero window a status is expired exactly when now is after its start |
| Status.FreshStatusOpen | pkg/status/status.go:13-28 | a fresh status has not reached a positive limit and is open at its own instant |
| MemoryStore.Reset | internal/stores/memory/memory.go:47-54 | stores and returns count 0 started now, whether or not the key existed; only that key changes |
| MemoryStore.Get | internal/stores/memory/memory.go:25-31 | a known key returns its stored status with the map unchanged; an unknown key is inserted fresh; nothing is removed |
| MemoryStore.Increment | internal/stores/memory/memory.go:36-42 | a known key gains exactly one and keeps its start; an unknown key ends with count 1 started now; only that key changes |
| MemoryStore.GetIdempotent | internal/stores/memory/memory.go:25-31 | a second Get, at any instant, returns the same status and map as the first |
| MemoryStore.IncrementCountsEachCall | internal/stores/memory/memory_test.go:60-88 | n increments of an unknown key leave count n and the first call's start |
| Memory.Reset | internal/stores/memory.go:51-58 | stores and returns count 0 started now, whether or not the key existed |
| Memory.Get | internal/stores/memory.go:25-31 | a known key returns its stored status unchanged; an unknown key is inserted fresh |
| Memory.Increment | internal/stores/memory.go:36-46 | a known key gains exactly one and keeps its start; an unknown key is reset to count 0 |
| Memory.IncrementAgreesIffKnown | internal/stores/memory.go:36-46 | the two Increments agree exactly on keys already stored |
| Redis.Split | internal/stores/redis/redis.go:79 | splitting on "::" always yields at least one field |
| Redis.SplitNoSeparator | internal/stores/redis/redis.go:79 | text containing no "::" is one field |
| Redis.SplitFirstField | internal/stores/redis/redis.go:79 | a first field with no "::" and no trailing colon is cut off at the first "::" |
| Redis.FormatStatus | internal/stores/redis/redis.go:73-75 | the stored text splits into exactly the count's text and the start's timestamp text |
| Redis.ParseValue | internal/stores/redis/redis.go:77-93 | a panic happens only on text without "::"; a start that is not the fallback `now` is a whole second |
| Redis.Reset | internal/stores/redis/redis.go:62-71 | stores the fresh status's text and returns count 0 started now; only that key changes |
| Redis.Get | internal/stores/redis/redis.go:36-42 | an unreadable key gets a fresh status written and returned; a readable key yields exactly the parse of its stored text, panicking when the parse does, with no write |
| Redis.Increment | internal/stores/redis/redis.go:47-57 | fails exactly when the read fails; otherwise stores count+1 with the start read, and returns the re-read whose start is that whole second |
| Redis.ParseRoundTrip | internal/stores/redis/redis.go:73-93 | parsing formatted text restores the count and the whole second of the start |
| Redis.ParseRoundTripWholeSecond | internal/stores/redis/redis_test.go:54-83 | for whole-second starts the round trip is exact |
| Redis.ParseBadCount | internal/stores/redis/redis.go:78-84 | a first field that is not a count yields a wholly fresh status, with or without a separator, including fields with single colons |
| Redis.ParseBadTimestamp | internal/stores/redis/redis.go:85-91 | a count followed by a non-timestamp keeps the count and starts at now |
| Redis.ParseMissingSeparator | internal/stores/redis/redis.go:79-87 | text with no "::" panics exactly when it is a valid count |
| Redis.FormatStatusInjective | internal/stores/redis/redis.go:73-75 | two statuses share stored text exactly when they agree on count and whole second |
| Redis.ResetThenGetTruncates | internal/stores/redis/redis.go:62-93 | a Get after Reset sees count 0 but only the whole second of the start Reset returned |
| Redis.IncrementUnknownKey | internal/stores/redis/redis_test.go:87-97 | an unknown key incremented once has count 1 in the current second |
| Redis.IncrementStored | internal/stores/redis/redis_test.go:99-130 | a stored status incremented gains one, keeps its start, and only its text changes |
| Redis.GetAgain | internal/stores/redis/redis.go:36-42 | a second Get at the same instant writes nothing more and sees the same count |
| Stores.Reset | pkg/limiter/limiter.go:10-14 | every store returns a fresh status and then holds count 0 at its own start precision; only that key changes |
| Stores.Get | pkg/limiter/limiter.go:10-14 | only the remote store can fail; an unknown key becomes a fresh count-0 entry; only that key changes, none is removed |
| Stores.Increment | pkg/limiter/limiter.go:10-14 | fails exactly when Get fails; adds one to the count Get reports (except the older store on an unknown key); a later Get sees the result |
| Stores.HoldsGet | pkg/limiter/limiter.go:11 | a stored status is what every Get reports, at any instant, without writing |
| Stores.GetAgain | pkg/limiter/limiter.go:11 | a second Get at the same instant reports the same count and writes nothing |
| Stores.IncrementHolds | pkg/limiter/limiter.go:12 | incrementing a stored status adds one and keeps its start, in every store |
| Stores.UnknownKeyCounts | pkg/limiter/limiter.go:10-14 | on an unknown key Get and Reset report 0 and Increment 1, except the older store's Increment, which reports 0 |
| Limiter.NewLimiter | pkg/limiter/limiter.go:28-34 | the limiter keeps exactly the given store, limit and window |
| Limiter.GetStatus | pkg/limiter/limiter.go:37-39 | the store's Get, passed through; an unknown key yields a fresh count-0 status |
| Limiter.ShouldLimit | pkg/limiter/limiter.go:42-52 | against the pre-call status (count 0 if its window was over): refused iff that count reached the limit; refused leaves it, admitted adds exactly one; other keys and the policy unchanged |
| Limiter.InWindowStep | pkg/limiter/limiter.go:43-51 | in an open window, refused iff count reached the limit; a refused request leaves the entry exactly as it was |
| Limiter.ExpiredWindowRolls | pkg/limiter/limiter.go:44-51 | an expired window with limit >= 1 admits the request, leaving count 1 started now |
| Limiter.UnknownKeyAdmitted | pkg/limiter/limiter.go:42-52 | an unknown key with limit >= 1 is admitted and ends with count 1 started now |
| Limiter.LimitBoundPreserved | pkg/limiter/limiter.go:42-52 | with limit >= 1, a count within the limit stays within it |
| Limiter.OtherKeysUnaffected | pkg/limiter/limiter.go:42-52 | every other key reads back as before, at any instant |
| Limiter.Replay | pkg/limiter/limiter.go:42-52 | consecutive requests yield one verdict each and keep the policy |
| Limiter.ReplayInWindow | pkg/limiter/limiter.go:42-52 | within one open window requests are admitted until the count reaches the limit and refused uncounted afterwards |
| Limiter.FreshKeyAdmitsExactlyLimit | pkg/limiter/limiter.go:42-52 | from a fresh key in one window the first `limit` requests are admitted and every later one refused |
| Limiter.ZeroWindowNeverAccumulates | pkg/limiter/limiter_test.go:111-125 | with a zero window and a forward-moving clock every request is admitted and the count is 1 after each |
| Middleware.DefaultKeyMapper | pkg/middlewares/rate_limiter.go:17-24 | the key is empty exactly when the address does not split; otherwise it is "IP:" followed by the host |
| Middleware.DefaultKeyInjective | pkg/middlewares/rate_limiter.go:23 | two hosts get the same default key exactly when they are equal |
| Middleware.NewRateLimiterMiddleware | pkg/middlewares/rate_limiter.go:36-39 | a missing key mapper is replaced by the default one; a given one is kept |
| Middleware.Serve | pkg/middlewares/rate_limiter.go:41-55 | empty key or marked request: forwarded unchanged, limiter untouched; otherwise 429 with the fixed body iff the limiter refuses, else forwarded with the marker set |
| Middleware.SecondRequestRejected | pkg/middlewares/rate_limiter_test.go:45-58 | with limit 1 the first request from an address is forwarded and a second one inside the window gets 429 |
| Middleware.UnsplitAddressBypasses | pkg/middlewares/rate_limiter_test.go:60-73 | a request whose address does not split is forwarded untouched and the limiter is unchanged |
| Middleware.ServeChain | pkg/middlewares/rate_limiter.go:33-35 | a chain reports one limiter per middleware |
| Middleware.AdmittedPassesChain | pkg/middlewares/rate_limiter.go:47-54 | a request already admitted passes every later middleware untouched |
| Middleware.ChainChargesAtMostOnce | pkg/middlewares/rate_limiter.go:33-54 | one request changes at most one limiter in a chain, and none if it arrives already admitted |

## Left out

- Locking (`sync.Mutex`) and all concurrency are left out; every operation is sequential. This includes the unlocked map read in `Get`, the non-atomic get/reset/increment sequence in `ShouldLimit`, and the self-deadlock of `Memory.Increment` on an unknown key (internal/stores/memory.go:37-42 holds the lock while `Reset` takes it again). The model gives that call the result it would compute without the lock: a reset entry.
- Pointer aliasing is left out: statuses are values, so a status returned earlier does not change when a later `Increment` runs.
- The go-redis client and the network are left out. The client is a map from key to text. Any read error is treated as a missing key. Every write succeeds. In the source a failed `Set` inside `Increment` leaves the previous text, so the re-read at internal/stores/redis/redis.go:56 returns the count without the increment (through line 41), or a fresh count-0 status when the re-read also fails (lines 37-39); the model cannot express either.
- `time.Now()` becomes the `now` parameter, and every clock read within one operation is that same instant. The source reads the clock afresh in `parseValue`'s `status.NewStatus()` (internal/stores/redis/redis.go:78, pkg/status/status.go:16), in `IsExpired` (pkg/status/status.go:27) and in `Reset`'s `status.NewStatus()` (internal/stores/redis/redis.go:63, internal/stores/memory/memory.go:51, internal/stores/memory.go:55). Consequence: a status created during a `ShouldLimit` call, or one that falls back to start `now` there (such as stored text "5::x"), is still open under a zero window in the model, where the source's later `IsExpired` read would find it expired and roll the window.
- Time zones, locations and the monotonic clock reading are not modelled. Instants are unbounded integers, so `time.Time.Add` never overflows.
- RFC 3339 text (section 5.6) is modelled by an injective whole-second encoding (`Clock.FormatTime` / `Clock.ParseTime`). It keeps what the store relies on: truncation to the second, no "::" inside, and an exact round trip. The model's text has no colon at all, while real RFC 3339 text has single colons ("15:04:05", "+02:00") but never "::". Years outside 0000-9999 and the exact character layout are not modelled.
- `net.SplitHostPort` becomes the optional `Request.host`. `log.Printf` is not modelled.
- Custom key mappers are arbitrary functions of a `Request` that carries only the host and the marker. Mappers that read headers (the API-key mapper of cmd/server.go) are not modelled.
- Writing the HTTP response is reduced to the status code and body. Calling `next` is reduced to the forwarded request.
- The constructors `NewMemoryStore`, `NewMemory` and `NewRedisStore` are not modelled; a new store is an empty map, and the Redis address and password are not modelled.
- `cmd/server.go`, `cmd/memory/server.go`, `pkg/config/config.go` and `pkg/middlewares/logs.go` are not part of this model. They are HTTP wiring, configuration loading and logging.
- Clock.ParseTime: timestamp text with a fraction of a second, which `time.Parse(time.RFC3339, …)` at internal/stores/redis/redis.go:87 accepts, is not modelled, so a parsed start is always a whole second. The store only ever writes whole-second text; only some other writer of the same key could store a fraction.
- Redis.ParseValue: its own contract states only the panic and whole-second facts, and the whole-second fact holds only because fractional timestamps are not modelled (see `Clock.ParseTime`). Its branches are stated by `Redis.ParseRoundTrip`, `Redis.ParseBadCount`, `Redis.ParseBadTimestamp` and `Redis.ParseMissingSeparator`.
- Middleware.ServeChain: each middleware carries its own copy of its store. In the program's chains (cmd/server.go:22-39, cmd/memory/server.go:16-34) both limiters share one store. The model agrees with that sharing only because the two key mappers give disjoint keys ("IP:" and "API_KEY:" prefixes); a chain whose mappers could produce the same key is not modelled.
