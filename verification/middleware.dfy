/** The rate-limit middleware of pkg/middlewares, as a pure decision per
    request: forward (marking the request as already admitted), forward
    unchanged, or answer 429. */
module Middleware {
  import opened Wrappers
  import opened Status
  import Stores
  import L = Limiter

  /** What the middleware reads from a request: the host part of its remote
      address when the address splits into host and port, and the
      "already admitted by a limiter" marker the middleware itself sets. */
  datatype Request = Request(host: Option<string>, rateLimitAllowed: bool)

  type KeyMapper = Request -> string

  const KeyPrefix: string := "IP:"
  const TooManyRequests: int := 429
  const LimitedBody: string :=
    "{\"message\": \"you have reached the maximum number of requests or actions allowed within a certain time frame\"}"

  datatype Middleware = Middleware(limiter: L.Limiter, keyMapper: KeyMapper)

  datatype Response = Forwarded(request: Request) | Rejected(code: int, body: string)

  /** The response and the limiter as the request left it. */
  datatype Served = Served(response: Response, limiter: L.Limiter)

  /** The host, prefixed so that address keys never meet keys of another
      kind in a shared store; the empty key when the address does not split. */
  function DefaultKeyMapper(r: Request): (key: string)
    ensures key == "" <==> r.host.None?
    ensures r.host.Some? ==> |key| >= |KeyPrefix| && key[..|KeyPrefix|] == KeyPrefix && key[|KeyPrefix|..] == r.host.value
  {
    match r.host
    case None => ""
    case Some(h) => KeyPrefix + h
  }

  /** The default key tells hosts apart. */
  lemma DefaultKeyInjective(a: Request, b: Request)
    requires a.host.Some? && b.host.Some?
    ensures DefaultKeyMapper(a) == DefaultKeyMapper(b) <==> a.host == b.host
  {
    if DefaultKeyMapper(a) == DefaultKeyMapper(b) {
      assert a.host.value == DefaultKeyMapper(a)[|KeyPrefix|..];
    }
  }

  /** A missing key mapper is replaced by the default one. */
  function NewRateLimiterMiddleware(l: L.Limiter, keyMapper: Option<KeyMapper>): (mw: Middleware)
    ensures mw.limiter == l
    ensures keyMapper.None? ==> forall r :: mw.keyMapper(r) == DefaultKeyMapper(r)
    ensures keyMapper.Some? ==> forall r :: mw.keyMapper(r) == keyMapper.value(r)
  {
    match keyMapper
    case None => Middleware(l, DefaultKeyMapper)
    case Some(f) => Middleware(l, f)
  }

  /** One request through one middleware at instant `now`. */
  function Serve(mw: Middleware, req: Request, now: int): (r: Result<Served>)
    // An empty key or an already admitted request never reaches the limiter.
    ensures mw.keyMapper(req) == "" || req.rateLimitAllowed ==> r == Ok(Served(Forwarded(req), mw.limiter))
    // Otherwise the limiter decides: refused means 429 with the fixed body,
    // admitted means forwarded with the marker set.
    ensures mw.keyMapper(req) != "" && !req.rateLimitAllowed ==>
      var v := L.ShouldLimit(mw.limiter, mw.keyMapper(req), now);
      && (r.Panic? <==> v.Panic?)
      && (r.Ok? ==> r.value.limiter == v.value.next)
      && (r.Ok? ==> (r.value.response.Rejected? <==> v.value.limited))
    ensures r.Ok? && r.value.response.Rejected? ==>
              r.value.response.code == TooManyRequests && r.value.response.body == LimitedBody
    ensures r.Ok? && r.value.response.Forwarded? ==>
              r.value.response.request.host == req.host
              && (r.value.response.request.rateLimitAllowed <==> req.rateLimitAllowed || mw.keyMapper(req) != "")
  {
    var key := mw.keyMapper(req);
    if key == "" then Ok(Served(Forwarded(req), mw.limiter))
    else if req.rateLimitAllowed then Ok(Served(Forwarded(req.(rateLimitAllowed := true)), mw.limiter))
    else
      match L.ShouldLimit(mw.limiter, key, now)
      case Panic(reason) => Panic(reason)
      case Ok(v) =>
        if v.limited then Ok(Served(Rejected(TooManyRequests, LimitedBody), v.next))
        else Ok(Served(Forwarded(req.(rateLimitAllowed := true)), v.next))
  }

  /** With limit 1 and a fresh key, a first request from an address is
      forwarded and a second one inside the window is refused with 429. */
  lemma SecondRequestRejected(store: Stores.Store, d: GoInt.Int64, h: string, t1: int, t2: int)
    requires !Stores.Has(store, KeyPrefix + h)
    requires t2 <= Stores.Resolution(store, t1) + d
    ensures var mw := NewRateLimiterMiddleware(L.NewLimiter(store, 1, d), None);
            var req := Request(Some(h), false);
            var first := Serve(mw, req, t1);
            && first.Ok? && first.value.response == Forwarded(req.(rateLimitAllowed := true))
            && var second := Serve(mw.(limiter := first.value.limiter), req, t2);
               second == Ok(Served(Rejected(TooManyRequests, LimitedBody), second.value.limiter))
  {
    var l := L.NewLimiter(store, 1, d);
    var key := KeyPrefix + h;
    L.UnknownKeyAdmitted(l, key, t1);
    var v := L.ShouldLimit(l, key, t1).value;
    L.InWindowStep(v.next, key, Status(1, Stores.Resolution(store, t1)), t2);
  }

  /** With the default key mapper, a request whose address does not split
      is forwarded untouched and the limiter is left as it was. */
  lemma UnsplitAddressBypasses(l: L.Limiter, req: Request, now: int)
    requires req.host.None?
    ensures Serve(NewRateLimiterMiddleware(l, None), req, now) == Ok(Served(Forwarded(req), l))
  {
  }

  /** Each middleware's limiter, in chain order. */
  function Limiters(chain: seq<Middleware>): (ls: seq<L.Limiter>)
    ensures |ls| == |chain|
    ensures forall i :: 0 <= i < |chain| ==> ls[i] == chain[i].limiter
  {
    seq(|chain|, i requires 0 <= i < |chain| => chain[i].limiter)
  }

  /** The response at the end of a chain and each limiter as the request left it. */
  datatype ChainServed = ChainServed(response: Response, limiters: seq<L.Limiter>)

  /** One request through a chain of middlewares, the first one outermost;
      a refusal stops the chain, the end of the chain hands the request on. */
  function ServeChain(chain: seq<Middleware>, req: Request, now: int): (r: Result<ChainServed>)
    ensures r.Ok? ==> |r.value.limiters| == |chain|
    decreases |chain|
  {
    if |chain| == 0 then Ok(ChainServed(Forwarded(req), []))
    else
      match Serve(chain[0], req, now)
      case Panic(reason) => Panic(reason)
      case Ok(s) =>
        if s.response.Rejected? then Ok(ChainServed(s.response, [s.limiter] + Limiters(chain[1..])))
        else
          match ServeChain(chain[1..], s.response.request, now)
          case Panic(reason) => Panic(reason)
          case Ok(rest) => Ok(ChainServed(rest.response, [s.limiter] + rest.limiters))
  }

  /** How many positions hold a different limiter. */
  function ChangedCount(before: seq<L.Limiter>, after: seq<L.Limiter>): nat
    requires |before| == |after|
  {
    if |before| == 0 then 0
    else (if before[0] != after[0] then 1 else 0) + ChangedCount(before[1..], after[1..])
  }

  /** A request that a limiter earlier in the chain admitted passes every
      later middleware untouched. */
  lemma {:induction false} AdmittedPassesChain(chain: seq<Middleware>, req: Request, now: int)
    requires req.rateLimitAllowed
    ensures ServeChain(chain, req, now) == Ok(ChainServed(Forwarded(req), Limiters(chain)))
    decreases |chain|
  {
    if |chain| > 0 {
      AdmittedPassesChain(chain[1..], req, now);
      assert [chain[0].limiter] + Limiters(chain[1..]) == Limiters(chain);
    }
  }

  lemma {:induction false} ChangedCountSame(ls: seq<L.Limiter>)
    ensures ChangedCount(ls, ls) == 0
  {
    if |ls| > 0 {
      ChangedCountSame(ls[1..]);
    }
  }

  /** However many middlewares a request passes, at most one limiter's store
      changes: the first one that consults its limiter either refuses, which
      ends the chain, or admits and marks the request, which every later
      middleware then lets through unchecked. */
  lemma {:induction false} ChainChargesAtMostOnce(chain: seq<Middleware>, req: Request, now: int)
    requires ServeChain(chain, req, now).Ok?
    ensures ChangedCount(Limiters(chain), ServeChain(chain, req, now).value.limiters) <= 1
    ensures req.rateLimitAllowed ==> ChangedCount(Limiters(chain), ServeChain(chain, req, now).value.limiters) == 0
    decreases |chain|
  {
    if |chain| > 0 {
      var s := Serve(chain[0], req, now).value;
      var before := Limiters(chain);
      var after := ServeChain(chain, req, now).value.limiters;
      assert before[1..] == Limiters(chain[1..]);
      if s.response.Rejected? {
        assert after == [s.limiter] + Limiters(chain[1..]);
        ChangedCountSame(Limiters(chain[1..]));
      } else {
        var next := s.response.request;
        var rest := ServeChain(chain[1..], next, now).value;
        assert after == [s.limiter] + rest.limiters;
        assert after[1..] == rest.limiters;
        if next.rateLimitAllowed {
          AdmittedPassesChain(chain[1..], next, now);
          ChangedCountSame(Limiters(chain[1..]));
        } else {
          assert chain[0].keyMapper(req) == "" && s.limiter == chain[0].limiter;
          ChainChargesAtMostOnce(chain[1..], next, now);
        }
      }
    }
  }
}
