/**
 The rate-limiting middleware of app/src/app.js: which key a request is metered
 on, which limit applies, and which of the two counters answers. Any number of
 replicas share one Redis and keep two in-process limiters each, one behind the
 read routes and one behind the write routes.
 */
module Limited {
  import opened Common
  import opened RateCounting
  import FixedWindow
  import SlidingWindow

  const WINDOW_MS := 60_000

  datatype Limits = Limits(writesPerMinute: int, readsPerMinute: int, cookielessWritesPerMinute: int)
  datatype Route = Reads | Writes

  /** isWrite is "the method is not GET", which a HEAD on a read route satisfies too. */
  datatype Request = Request(route: Route, isWrite: bool, visitorIsNew: bool, ip: string, visitorId: string)

  predicate MeterByAddress(req: Request) {
    req.isWrite && req.visitorIsNew
  }

  function KeyOf(req: Request): string {
    "rl:" + (if req.isWrite then "w" else "r") + ":"
    + (if MeterByAddress(req) then "ip:" + req.ip else "v:" + req.visitorId)
  }

  function RouteLimit(limits: Limits, route: Route): int {
    match route case Reads => limits.readsPerMinute case Writes => limits.writesPerMinute
  }

  function Effective(limits: Limits, req: Request): int {
    if MeterByAddress(req) then limits.cookielessWritesPerMinute else RouteLimit(limits, req.route)
  }

  /** A key says whether its requests write and whether they are metered by address. */
  lemma KeyTells(a: Request, b: Request)
    requires KeyOf(a) == KeyOf(b)
    ensures a.isWrite == b.isWrite && MeterByAddress(a) == MeterByAddress(b)
  {
    assert KeyOf(a)[3] == if a.isWrite then 'w' else 'r';
    assert KeyOf(b)[3] == if b.isWrite then 'w' else 'r';
    assert KeyOf(a)[5] == if MeterByAddress(a) then 'i' else 'v';
    assert KeyOf(b)[5] == if MeterByAddress(b) then 'i' else 'v';
  }

  /**
   Two requests on one key are under one limit if and only if they are on one
   route, or metered by address, or the routes' limits are the same.
   */
  lemma KeyDecidesTheLimitIff(limits: Limits, a: Request, b: Request)
    requires KeyOf(a) == KeyOf(b)
    ensures Effective(limits, a) == Effective(limits, b)
       <==> a.route == b.route || MeterByAddress(a) || limits.readsPerMinute == limits.writesPerMinute
  {
    KeyTells(a, b);
  }

  /** So a HEAD on a read route spends a write bucket, under the read limit where that differs. */
  lemma HeadSpendsAWriteBucket(limits: Limits, visitor: string)
    ensures var head := Request(Reads, true, false, "", visitor);
            var post := Request(Writes, true, false, "", visitor);
            && KeyOf(head) == KeyOf(post) && Effective(limits, head) == limits.readsPerMinute
            && (Effective(limits, head) == Effective(limits, post) <==> limits.readsPerMinute == limits.writesPerMinute)
  {
    KeyDecidesTheLimitIff(limits, Request(Reads, true, false, "", visitor), Request(Writes, true, false, "", visitor));
  }

  datatype Decision = Decision(key: string, route: Route, at: int, admitted: bool,
                               remaining: int, retryAfter: int, shared: bool)

  function DecideShared(limits: Limits, req: Request, at: int, count: nat): Decision {
    Decision(KeyOf(req), req.route, at, count <= Effective(limits, req),
             FixedWindow.AtLeastZero(Effective(limits, req) - count), 60, true)
  }

  function DecideLocal(limits: Limits, req: Request, at: int, e: FixedWindow.Entry): Decision {
    var v := FixedWindow.VerdictOn(RouteLimit(limits, req.route), e, at);
    Decision(KeyOf(req), req.route, at, v.allowed && v.count <= Effective(limits, req),
             FixedWindow.AtLeastZero(Effective(limits, req) - v.count), v.retryAfter, false)
  }

  function AfterShared(db: SlidingWindow.Db, req: Request, at: int, nonce: string, answered: bool): SlidingWindow.Db {
    SlidingWindow.After(db, WINDOW_MS, SlidingWindow.Hit(KeyOf(req), at, nonce, answered), true)
  }

  function AfterLocal(w: FixedWindow.Windows, req: Request, at: int): FixedWindow.Windows {
    FixedWindow.After(w, WINDOW_MS, FixedWindow.Hit(KeyOf(req), at), true)
  }

  /** One replica of the app, holding its limiters and the shared counter. */
  class Replica {
    const limits: Limits
    const redis: SlidingWindow.SharedCounter
    const readLimiter: FixedWindow.RateLimiter
    const writeLimiter: FixedWindow.RateLimiter

    constructor (limits: Limits, redis: SlidingWindow.SharedCounter)
      ensures this.limits == limits && this.redis == redis && Wired()
      ensures readLimiter.windows == writeLimiter.windows == map[]
      ensures fresh(readLimiter) && fresh(writeLimiter)
    {
      this.limits, this.redis := limits, redis;
      this.readLimiter := new FixedWindow.RateLimiter(limits.readsPerMinute);
      this.writeLimiter := new FixedWindow.RateLimiter(limits.writesPerMinute);
    }

    ghost predicate Wired() {
      && readLimiter != writeLimiter
      && readLimiter.limit == limits.readsPerMinute && readLimiter.windowMs == WINDOW_MS
      && writeLimiter.limit == limits.writesPerMinute && writeLimiter.windowMs == WINDOW_MS
    }

    function LimiterOf(route: Route): FixedWindow.RateLimiter {
      if route == Reads then readLimiter else writeLimiter
    }

    method Admit(req: Request, now: int, nonce: string, answered: bool) returns (d: Decision)
      requires Wired()
      modifies redis, readLimiter, writeLimiter
      ensures redis.healthy == old(redis.healthy)
      ensures redis.db == if redis.healthy then AfterShared(old(redis.db), req, now, nonce, answered) else old(redis.db)
      ensures redis.healthy && answered ==>
                && d == DecideShared(limits, req, now, |redis.db[KeyOf(req)].members|)
                && readLimiter.windows == old(readLimiter.windows)
                && writeLimiter.windows == old(writeLimiter.windows)
      ensures !(redis.healthy && answered) ==>
                && LimiterOf(req.route).windows == AfterLocal(old(LimiterOf(req.route).windows), req, now)
                && d == DecideLocal(limits, req, now, LimiterOf(req.route).windows[KeyOf(req)])
                && (req.route == Writes ==> readLimiter.windows == old(readLimiter.windows))
                && (req.route == Reads ==> writeLimiter.windows == old(writeLimiter.windows))
    {
      var effective := Effective(limits, req);
      var key := KeyOf(req);
      var shared := redis.SlidingWindow(key, WINDOW_MS, now, nonce, answered);
      if shared.Some? {
        d := Decision(key, req.route, now, shared.value <= effective,
                      FixedWindow.AtLeastZero(effective - shared.value), 60, true);
      } else {
        var local;
        if req.route == Reads {
          local := readLimiter.Check(key, now);
        } else {
          local := writeLimiter.Check(key, now);
        }
        d := Decision(key, req.route, now, local.allowed && local.count <= effective,
                      FixedWindow.AtLeastZero(effective - local.count), local.retryAfter, false);
      }
    }
  }

  // ---- Runs over many replicas ----

  datatype Reply = Answered | LostReply | Down
  datatype Arrival = Arrival(req: Request, at: int, nonce: string, replica: nat, reply: Reply)
  datatype Place = Place(replica: nat, route: Route)
  datatype Fleet = Fleet(db: SlidingWindow.Db, local: map<Place, FixedWindow.Windows>)

  function WindowsAt(f: Fleet, p: Place): FixedWindow.Windows {
    if p in f.local then f.local[p] else map[]
  }

  function PlaceOf(a: Arrival): Place {
    Place(a.replica, a.req.route)
  }

  function Arrive(f: Fleet, a: Arrival): Fleet {
    var db := if a.reply == Down then f.db else AfterShared(f.db, a.req, a.at, a.nonce, a.reply == Answered);
    if a.reply == Answered then Fleet(db, f.local)
    else Fleet(db, f.local[PlaceOf(a) := AfterLocal(WindowsAt(f, PlaceOf(a)), a.req, a.at)])
  }

  function FleetAfter(arrivals: seq<Arrival>): Fleet {
    if arrivals == [] then Fleet(map[], map[]) else Arrive(FleetAfter(Init(arrivals)), Last(arrivals))
  }

  /** The decision on the last arrival of a run. */
  function Decided(limits: Limits, arrivals: seq<Arrival>): Decision
    requires arrivals != []
  {
    var f, a := FleetAfter(arrivals), Last(arrivals);
    SharedDefined(arrivals);
    if a.reply == Answered then DecideShared(limits, a.req, a.at, |f.db[KeyOf(a.req)].members|)
    else DecideLocal(limits, a.req, a.at, f.local[PlaceOf(a)][KeyOf(a.req)])
  }

  lemma SharedDefined(arrivals: seq<Arrival>)
    requires arrivals != []
    ensures Last(arrivals).reply == Answered ==> KeyOf(Last(arrivals).req) in FleetAfter(arrivals).db
    ensures Last(arrivals).reply != Answered ==>
              && PlaceOf(Last(arrivals)) in FleetAfter(arrivals).local
              && KeyOf(Last(arrivals).req) in FleetAfter(arrivals).local[PlaceOf(Last(arrivals))]
  {}

  /** Requests admitted on one key and route, whichever counter let them in. */
  function AdmittedAt(limits: Limits, arrivals: seq<Arrival>, key: string, route: Route, lo: int, hi: int): nat {
    if arrivals == [] then 0
    else
      AdmittedAt(limits, Init(arrivals), key, route, lo, hi)
      + if Admits(Decided(limits, arrivals), key, route, lo, hi) then 1 else 0
  }

  predicate Admits(d: Decision, key: string, route: Route, lo: int, hi: int) {
    d.admitted && d.key == key && d.route == route && lo <= d.at < hi
  }

  // ---- Each counter sees a run of its own ----

  function SharedHits(arrivals: seq<Arrival>): seq<SlidingWindow.Hit> {
    if arrivals == [] then []
    else
      var a := Last(arrivals);
      SharedHits(Init(arrivals))
      + if a.reply == Down then [] else [SlidingWindow.Hit(KeyOf(a.req), a.at, a.nonce, a.reply == Answered)]
  }

  function LocalHits(arrivals: seq<Arrival>, p: Place): seq<FixedWindow.Hit> {
    if arrivals == [] then []
    else
      var a := Last(arrivals);
      LocalHits(Init(arrivals), p)
      + if a.reply == Answered || PlaceOf(a) != p then [] else [FixedWindow.Hit(KeyOf(a.req), a.at)]
  }

  lemma {:induction false} SharedRunProjects(arrivals: seq<Arrival>)
    ensures FleetAfter(arrivals).db == SlidingWindow.Run(WINDOW_MS, SharedHits(arrivals), true)
  {
    if arrivals != [] {
      SharedRunProjects(Init(arrivals));
      if Last(arrivals).reply != Down {
        assert Init(SharedHits(arrivals)) == SharedHits(Init(arrivals));
      } else {
        assert SharedHits(arrivals) == SharedHits(Init(arrivals));
      }
    }
  }

  lemma {:induction false} LocalRunProjects(arrivals: seq<Arrival>, p: Place)
    ensures WindowsAt(FleetAfter(arrivals), p) == FixedWindow.Run(WINDOW_MS, LocalHits(arrivals, p), true)
  {
    if arrivals != [] {
      LocalRunProjects(Init(arrivals), p);
      if Last(arrivals).reply != Answered && PlaceOf(Last(arrivals)) == p {
        assert Init(LocalHits(arrivals, p)) == LocalHits(Init(arrivals), p);
      } else {
        assert LocalHits(arrivals, p) == LocalHits(Init(arrivals), p);
      }
    }
  }

  // ---- The clock and the nonces carry over to each projection ----

  ghost predicate Clocked(arrivals: seq<Arrival>) {
    && (forall i :: 0 <= i < |arrivals| ==> 0 <= arrivals[i].at)
    && (forall i, j :: 0 <= i < j < |arrivals| ==> arrivals[i].at <= arrivals[j].at)
  }

  predicate SameMember(a: Arrival, b: Arrival) {
    KeyOf(a.req) == KeyOf(b.req) && a.at == b.at && a.nonce == b.nonce
  }

  ghost predicate DistinctNonces(arrivals: seq<Arrival>) {
    forall i, j :: 0 <= i < j < |arrivals| ==> !SameMember(arrivals[i], arrivals[j])
  }

  lemma {:induction false} SharedHitIsArrival(arrivals: seq<Arrival>, k: nat) returns (i: nat)
    requires k < |SharedHits(arrivals)|
    ensures i < |arrivals| && arrivals[i].at == SharedHits(arrivals)[k].at
    ensures KeyOf(arrivals[i].req) == SharedHits(arrivals)[k].key && arrivals[i].nonce == SharedHits(arrivals)[k].nonce
  {
    if k < |SharedHits(Init(arrivals))| {
      i := SharedHitIsArrival(Init(arrivals), k);
    } else {
      i := |arrivals| - 1;
    }
  }

  lemma {:induction false} LocalHitIsArrival(arrivals: seq<Arrival>, p: Place, k: nat) returns (i: nat)
    requires k < |LocalHits(arrivals, p)|
    ensures i < |arrivals| && arrivals[i].at == LocalHits(arrivals, p)[k].at
  {
    if k < |LocalHits(Init(arrivals), p)| {
      i := LocalHitIsArrival(Init(arrivals), p, k);
    } else {
      i := |arrivals| - 1;
    }
  }

  lemma ClockedInit(arrivals: seq<Arrival>)
    requires arrivals != [] && Clocked(arrivals)
    ensures Clocked(Init(arrivals))
  {
    assert forall i :: 0 <= i < |arrivals| - 1 ==> Init(arrivals)[i] == arrivals[i];
  }

  lemma DistinctInit(arrivals: seq<Arrival>)
    requires arrivals != [] && DistinctNonces(arrivals)
    ensures DistinctNonces(Init(arrivals))
  {
    assert forall i :: 0 <= i < |arrivals| - 1 ==> Init(arrivals)[i] == arrivals[i];
  }

  lemma {:induction false} SharedTimesClocked(arrivals: seq<Arrival>)
    requires Clocked(arrivals)
    ensures SlidingWindow.Clocked(SharedHits(arrivals))
  {
    if arrivals != [] {
      ClockedInit(arrivals);
      SharedTimesClocked(Init(arrivals));
      var hits := SharedHits(Init(arrivals));
      forall k | 0 <= k < |hits| ensures hits[k].at <= Last(arrivals).at {
        var i := SharedHitIsArrival(Init(arrivals), k);
        assert arrivals[i] == Init(arrivals)[i];
      }
    }
  }

  lemma {:induction false} SharedHitsDistinct(arrivals: seq<Arrival>, key: string)
    requires DistinctNonces(arrivals)
    ensures SlidingWindow.DistinctSince(SharedHits(arrivals), key, 0)
  {
    if arrivals != [] {
      var init, a := Init(arrivals), Last(arrivals);
      DistinctInit(arrivals);
      SharedHitsDistinct(init, key);
      var hits := SharedHits(init);
      forall k | 0 <= k < |hits| ensures !(hits[k].key == KeyOf(a.req) && hits[k].at == a.at && hits[k].nonce == a.nonce) {
        var i := SharedHitIsArrival(init, k);
        assert arrivals[i] == init[i] && !SameMember(arrivals[i], arrivals[|arrivals| - 1]);
      }
    }
  }

  lemma {:induction false} LocalHitsClocked(arrivals: seq<Arrival>, p: Place)
    requires Clocked(arrivals)
    ensures FixedWindow.Nondecreasing(LocalHits(arrivals, p))
  {
    if arrivals != [] {
      ClockedInit(arrivals);
      LocalHitsClocked(Init(arrivals), p);
      var hits := LocalHits(Init(arrivals), p);
      forall k | 0 <= k < |hits| ensures hits[k].at <= Last(arrivals).at {
        var i := LocalHitIsArrival(Init(arrivals), p, k);
        assert arrivals[i] == Init(arrivals)[i];
      }
    }
  }

  // ---- The fleet-wide allowance ----

  function SharedLog(arrivals: seq<Arrival>, cap: int): seq<Outcome> {
    SlidingWindow.Log(WINDOW_MS, SharedHits(arrivals), cap)
  }

  function LocalLog(arrivals: seq<Arrival>, p: Place, cap: int): seq<Outcome> {
    FixedWindow.Log(WINDOW_MS, LocalHits(arrivals, p), cap, true)
  }

  function Sum(f: nat -> nat, n: nat): nat {
    if n == 0 then 0 else Sum(f, n - 1) + f(n - 1)
  }

  lemma SumGrows(f: nat -> nat, g: nat -> nat, n: nat, at: nat, gain: nat)
    requires forall i: nat :: f(i) <= g(i)
    requires at < n && f(at) + gain <= g(at)
    ensures Sum(f, n) + gain <= Sum(g, n)
  {
    if at < n - 1 {
      SumGrows(f, g, n - 1, at, gain);
    } else {
      SumMonotone(f, g, n - 1);
    }
  }

  lemma SumMonotone(f: nat -> nat, g: nat -> nat, n: nat)
    requires forall i: nat :: f(i) <= g(i)
    ensures Sum(f, n) <= Sum(g, n)
  {}

  lemma SumBound(f: nat -> nat, n: nat, each: nat)
    requires forall i: nat :: f(i) <= each
    ensures Sum(f, n) <= n * each
  {
    if n > 0 {
      SumBound(f, n - 1, each);
      assert n * each == (n - 1) * each + each;
    }
  }

  function LocalAdmitted(arrivals: seq<Arrival>, p: Place, key: string, cap: int, lo: int, hi: int): nat {
    AdmittedIn(LocalLog(arrivals, p, cap), key, lo, hi)
  }

  /** What each replica's limiter behind one route admitted. */
  function LocalShares(arrivals: seq<Arrival>, route: Route, key: string, cap: int, lo: int, hi: int): nat -> nat {
    (r: nat) => LocalAdmitted(arrivals, Place(r, route), key, cap, lo, hi)
  }

  function LocalTotal(arrivals: seq<Arrival>, n: nat, route: Route, key: string, cap: int, lo: int, hi: int): nat {
    Sum(LocalShares(arrivals, route, key, cap, lo, hi), n)
  }

  /** The last arrival was let in by the limiter at a place, within cap. */
  predicate LocalLetsIn(arrivals: seq<Arrival>, p: Place, key: string, cap: int, lo: int, hi: int)
    requires arrivals != []
  {
    var a := Last(arrivals);
    && a.reply != Answered && PlaceOf(a) == p && KeyOf(a.req) == key && lo <= a.at < hi
    && key in WindowsAt(FleetAfter(arrivals), p) && WindowsAt(FleetAfter(arrivals), p)[key].count <= cap
  }

  /** The last arrival was let in by the shared counter, within cap. */
  predicate SharedLetsIn(arrivals: seq<Arrival>, key: string, cap: int, lo: int, hi: int)
    requires arrivals != []
  {
    var a := Last(arrivals);
    && a.reply == Answered && KeyOf(a.req) == key && lo <= a.at < hi
    && key in FleetAfter(arrivals).db && |FleetAfter(arrivals).db[key].members| <= cap
  }

  lemma LocalLogStep(arrivals: seq<Arrival>, p: Place, cap: int, key: string, lo: int, hi: int)
    requires arrivals != []
    ensures LocalAdmitted(arrivals, p, key, cap, lo, hi)
         == LocalAdmitted(Init(arrivals), p, key, cap, lo, hi)
          + if LocalLetsIn(arrivals, p, key, cap, lo, hi) then 1 else 0
  {
    var a := Last(arrivals);
    if a.reply != Answered && PlaceOf(a) == p {
      LocalRunProjects(arrivals, p);
      FixedWindow.LogOfOneMore(WINDOW_MS, LocalHits(Init(arrivals), p), FixedWindow.Hit(KeyOf(a.req), a.at),
                               cap, true, key, lo, hi);
    } else {
      assert LocalHits(arrivals, p) == LocalHits(Init(arrivals), p);
    }
  }

  lemma SharedLogStep(arrivals: seq<Arrival>, cap: int, key: string, lo: int, hi: int)
    requires arrivals != []
    ensures AdmittedIn(SharedLog(arrivals, cap), key, lo, hi)
         == AdmittedIn(SharedLog(Init(arrivals), cap), key, lo, hi)
          + if SharedLetsIn(arrivals, key, cap, lo, hi) then 1 else 0
  {
    var a := Last(arrivals);
    if a.reply != Down {
      SharedRunProjects(arrivals);
      SlidingWindow.LogOfOneMore(WINDOW_MS, SharedHits(Init(arrivals)),
                                 SlidingWindow.Hit(KeyOf(a.req), a.at, a.nonce, a.reply == Answered), cap, key, lo, hi);
    } else {
      assert SharedHits(arrivals) == SharedHits(Init(arrivals));
    }
  }

  lemma LocalTotalStep(arrivals: seq<Arrival>, n: nat, route: Route, key: string, cap: int, lo: int, hi: int)
    requires arrivals != [] && Last(arrivals).replica < n
    ensures LocalTotal(arrivals, n, route, key, cap, lo, hi)
         >= LocalTotal(Init(arrivals), n, route, key, cap, lo, hi)
          + if LocalLetsIn(arrivals, Place(Last(arrivals).replica, route), key, cap, lo, hi) then 1 else 0
  {
    var f, g := LocalShares(Init(arrivals), route, key, cap, lo, hi), LocalShares(arrivals, route, key, cap, lo, hi);
    var at := Last(arrivals).replica;
    forall r: nat
      ensures g(r) == f(r) + if LocalLetsIn(arrivals, Place(r, route), key, cap, lo, hi) then 1 else 0
    {
      LocalLogStep(arrivals, Place(r, route), cap, key, lo, hi);
    }
    SumGrows(f, g, n, at, if LocalLetsIn(arrivals, Place(at, route), key, cap, lo, hi) then 1 else 0);
  }

  // ---- The limits of the two counters ----

  /** What the shared counter lets a request's key have: its effective limit. */
  function SharedCap(limits: Limits, req: Request): nat {
    FixedWindow.AtLeastZero(Effective(limits, req))
  }

  function Smaller(a: int, b: int): int {
    if a < b then a else b
  }

  /** What a replica's limiter behind the route lets it have: also no more than the limiter's own limit. */
  function LocalCap(limits: Limits, req: Request): nat {
    FixedWindow.AtLeastZero(Smaller(Effective(limits, req), RouteLimit(limits, req.route)))
  }

  /** An admission on the key was let in by the counter that answered it. */
  lemma AdmissionIsLetIn(limits: Limits, arrivals: seq<Arrival>, req: Request, lo: int, hi: int)
    requires arrivals != [] && Admits(Decided(limits, arrivals), KeyOf(req), req.route, lo, hi)
    ensures SharedLetsIn(arrivals, KeyOf(req), SharedCap(limits, req), lo, hi)
         || LocalLetsIn(arrivals, Place(Last(arrivals).replica, req.route), KeyOf(req), LocalCap(limits, req), lo, hi)
  {
    SharedDefined(arrivals);
    KeyDecidesTheLimitIff(limits, Last(arrivals).req, req);
  }

  lemma {:induction false} AdmissionsAreCounted(limits: Limits, arrivals: seq<Arrival>, n: nat, req: Request, lo: int, hi: int)
    requires forall i :: 0 <= i < |arrivals| ==> arrivals[i].replica < n
    ensures AdmittedAt(limits, arrivals, KeyOf(req), req.route, lo, hi)
         <= AdmittedIn(SharedLog(arrivals, SharedCap(limits, req)), KeyOf(req), lo, hi)
          + LocalTotal(arrivals, n, req.route, KeyOf(req), LocalCap(limits, req), lo, hi)
  {
    if arrivals == [] {
    } else {
      assert forall i :: 0 <= i < |arrivals| - 1 ==> Init(arrivals)[i] == arrivals[i];
      AdmissionsAreCounted(limits, Init(arrivals), n, req, lo, hi);
      AdmittedAtStep(limits, arrivals, n, req, SharedCap(limits, req), LocalCap(limits, req), lo, hi);
    }
  }

  lemma AdmittedAtStep(limits: Limits, arrivals: seq<Arrival>, n: nat, req: Request, s: nat, l: nat, lo: int, hi: int)
    requires arrivals != [] && Last(arrivals).replica < n && s == SharedCap(limits, req) && l == LocalCap(limits, req)
    ensures AdmittedAt(limits, arrivals, KeyOf(req), req.route, lo, hi)
          - AdmittedAt(limits, Init(arrivals), KeyOf(req), req.route, lo, hi)
         <= AdmittedIn(SharedLog(arrivals, s), KeyOf(req), lo, hi)
          - AdmittedIn(SharedLog(Init(arrivals), s), KeyOf(req), lo, hi)
          + LocalTotal(arrivals, n, req.route, KeyOf(req), l, lo, hi)
          - LocalTotal(Init(arrivals), n, req.route, KeyOf(req), l, lo, hi)
  {
    SharedLogStep(arrivals, s, KeyOf(req), lo, hi);
    LocalTotalStep(arrivals, n, req.route, KeyOf(req), l, lo, hi);
    if Admits(Decided(limits, arrivals), KeyOf(req), req.route, lo, hi) {
      AdmissionIsLetIn(limits, arrivals, req, lo, hi);
    }
  }

  lemma LocalBound(arrivals: seq<Arrival>, p: Place, key: string, cap: nat, lo: int)
    requires Clocked(arrivals)
    ensures LocalAdmitted(arrivals, p, key, cap, lo, lo + WINDOW_MS) <= FixedWindow.Most(cap)
  {
    LocalHitsClocked(arrivals, p);
    FixedWindow.AtMostTwiceLessOne(WINDOW_MS, LocalHits(arrivals, p), key, cap, lo);
  }

  lemma LocalTotalBound(arrivals: seq<Arrival>, n: nat, route: Route, key: string, cap: nat, lo: int)
    requires Clocked(arrivals)
    ensures LocalTotal(arrivals, n, route, key, cap, lo, lo + WINDOW_MS) <= n * FixedWindow.Most(cap)
  {
    var f := LocalShares(arrivals, route, key, cap, lo, lo + WINDOW_MS);
    forall r: nat ensures f(r) <= FixedWindow.Most(cap) {
      LocalBound(arrivals, Place(r, route), key, cap, lo);
    }
    SumBound(f, n, FixedWindow.Most(cap));
  }

  /** The hits of an interval whose time and nonce an earlier hit on the key already drew. */
  ghost function Repeats(arrivals: seq<Arrival>, key: string, lo: int): nat {
    SlidingWindow.RepeatsIn(SharedHits(arrivals), key, lo, lo + WINDOW_MS)
  }

  lemma SharedBound(arrivals: seq<Arrival>, key: string, cap: nat, lo: int)
    requires Clocked(arrivals)
    ensures AdmittedIn(SharedLog(arrivals, cap), key, lo, lo + WINDOW_MS) <= cap + Repeats(arrivals, key, lo)
  {
    SharedTimesClocked(arrivals);
    SlidingWindow.AtMostTheLimitAndRepeats(WINDOW_MS, SharedHits(arrivals), key, cap, lo);
  }

  lemma NoRepeats(arrivals: seq<Arrival>, key: string, lo: int)
    requires Clocked(arrivals) && DistinctNonces(arrivals)
    ensures Repeats(arrivals, key, lo) == 0
  {
    SharedTimesClocked(arrivals);
    SharedHitsDistinct(arrivals, key);
    SlidingWindow.NoRepeats(SharedHits(arrivals), key, lo, lo + WINDOW_MS);
  }

  /**
   Looser, never absent: over any traffic, with Redis answering, losing replies
   or down as it pleases, a key behind a route gets in any minute at most its
   limit from the shared window, and one less than twice its limit from each of n
   replicas; and as many more as drew a member already drawn.
   */
  lemma FleetAllowance(limits: Limits, arrivals: seq<Arrival>, n: nat, req: Request, lo: int)
    requires Clocked(arrivals) && forall i :: 0 <= i < |arrivals| ==> arrivals[i].replica < n
    ensures AdmittedAt(limits, arrivals, KeyOf(req), req.route, lo, lo + WINDOW_MS)
         <= n * FixedWindow.Most(LocalCap(limits, req)) + SharedCap(limits, req) + Repeats(arrivals, KeyOf(req), lo)
    ensures DistinctNonces(arrivals) ==> Repeats(arrivals, KeyOf(req), lo) == 0
  {
    AdmissionsAreCounted(limits, arrivals, n, req, lo, lo + WINDOW_MS);
    SharedBound(arrivals, KeyOf(req), SharedCap(limits, req), lo);
    LocalTotalBound(arrivals, n, req.route, KeyOf(req), LocalCap(limits, req), lo);
    if DistinctNonces(arrivals) {
      NoRepeats(arrivals, KeyOf(req), lo);
    }
  }

  // ---- One key over both routes ----

  function OnRoute(req: Request, route: Route): (r: Request)
    ensures KeyOf(r) == KeyOf(req) && r.route == route
  {
    req.(route := route)
  }

  /** What the shared counter and one replica's limiter let a request's key have on a route. */
  function SharedOn(limits: Limits, req: Request, route: Route): nat {
    SharedCap(limits, OnRoute(req, route))
  }

  function LocalOn(limits: Limits, req: Request, route: Route): nat {
    LocalCap(limits, OnRoute(req, route))
  }

  function Larger(a: nat, b: nat): nat {
    if a < b then b else a
  }

  function MostShared(limits: Limits, req: Request): nat {
    Larger(SharedOn(limits, req, Reads), SharedOn(limits, req, Writes))
  }

  /** Requests admitted on one key, whatever the route. */
  function AdmittedOn(limits: Limits, arrivals: seq<Arrival>, key: string, lo: int, hi: int): nat {
    AdmittedAt(limits, arrivals, key, Reads, lo, hi) + AdmittedAt(limits, arrivals, key, Writes, lo, hi)
  }

  lemma SharedLetsInMore(arrivals: seq<Arrival>, key: string, cap: int, cap': int, lo: int, hi: int)
    requires arrivals != [] && cap <= cap' && SharedLetsIn(arrivals, key, cap, lo, hi)
    ensures SharedLetsIn(arrivals, key, cap', lo, hi)
  {}

  function One(b: bool): nat {
    if b then 1 else 0
  }

  /** The last arrival adds one admission at most, on its own route. */
  lemma AdmittedOnGain(limits: Limits, arrivals: seq<Arrival>, key: string, lo: int, hi: int)
    requires arrivals != []
    ensures AdmittedOn(limits, arrivals, key, lo, hi)
         == AdmittedOn(limits, Init(arrivals), key, lo, hi)
          + One(Admits(Decided(limits, arrivals), key, Last(arrivals).req.route, lo, hi))
  {
    DecidedRoute(limits, arrivals);
  }

  /** An admission was let in by the shared counter, or by its replica's limiter behind its route. */
  lemma LetInSomewhere(limits: Limits, arrivals: seq<Arrival>, req: Request, lo: int, hi: int)
    requires arrivals != []
    ensures var (k, route) := (KeyOf(req), Last(arrivals).req.route);
            One(Admits(Decided(limits, arrivals), k, route, lo, hi))
            <= One(SharedLetsIn(arrivals, k, MostShared(limits, req), lo, hi))
               + One(LocalLetsIn(arrivals, Place(Last(arrivals).replica, route), k, LocalOn(limits, req, route), lo, hi))
  {
    var (k, route) := (KeyOf(req), Last(arrivals).req.route);
    if Admits(Decided(limits, arrivals), k, route, lo, hi) {
      AdmissionIsLetIn(limits, arrivals, OnRoute(req, route), lo, hi);
      if SharedLetsIn(arrivals, k, SharedOn(limits, req, route), lo, hi) {
        SharedLetsInMore(arrivals, k, SharedOn(limits, req, route), MostShared(limits, req), lo, hi);
      }
    }
  }

  /** An admission is counted where it was let in, and it was on one route. */
  lemma AdmittedOnStep(limits: Limits, arrivals: seq<Arrival>, n: nat, req: Request, k: string, s: nat, r: nat, w: nat, lo: int, hi: int)
    requires arrivals != [] && Last(arrivals).replica < n
    requires k == KeyOf(req) && s == MostShared(limits, req) && r == LocalOn(limits, req, Reads) && w == LocalOn(limits, req, Writes)
    ensures AdmittedOn(limits, arrivals, k, lo, hi) - AdmittedOn(limits, Init(arrivals), k, lo, hi)
         <= AdmittedIn(SharedLog(arrivals, s), k, lo, hi) - AdmittedIn(SharedLog(Init(arrivals), s), k, lo, hi)
          + LocalTotal(arrivals, n, Reads, k, r, lo, hi) - LocalTotal(Init(arrivals), n, Reads, k, r, lo, hi)
          + LocalTotal(arrivals, n, Writes, k, w, lo, hi) - LocalTotal(Init(arrivals), n, Writes, k, w, lo, hi)
  {
    SharedLogStep(arrivals, s, k, lo, hi);
    LocalTotalStep(arrivals, n, Reads, k, r, lo, hi);
    LocalTotalStep(arrivals, n, Writes, k, w, lo, hi);
    AdmittedOnGain(limits, arrivals, k, lo, hi);
    LetInSomewhere(limits, arrivals, req, lo, hi);
  }

  lemma DecidedRoute(limits: Limits, arrivals: seq<Arrival>)
    requires arrivals != []
    ensures Decided(limits, arrivals).route == Last(arrivals).req.route
  {}

  lemma {:induction false} AdmissionsOnAKey(limits: Limits, arrivals: seq<Arrival>, n: nat, req: Request, lo: int, hi: int)
    requires forall i :: 0 <= i < |arrivals| ==> arrivals[i].replica < n
    ensures AdmittedOn(limits, arrivals, KeyOf(req), lo, hi)
         <= AdmittedIn(SharedLog(arrivals, MostShared(limits, req)), KeyOf(req), lo, hi)
          + LocalTotal(arrivals, n, Reads, KeyOf(req), LocalOn(limits, req, Reads), lo, hi)
          + LocalTotal(arrivals, n, Writes, KeyOf(req), LocalOn(limits, req, Writes), lo, hi)
  {
    if arrivals != [] {
      assert forall i :: 0 <= i < |arrivals| - 1 ==> Init(arrivals)[i] == arrivals[i];
      AdmissionsOnAKey(limits, Init(arrivals), n, req, lo, hi);
      AdmittedOnStep(limits, arrivals, n, req, KeyOf(req), MostShared(limits, req),
                     LocalOn(limits, req, Reads), LocalOn(limits, req, Writes), lo, hi);
    }
  }

  lemma KeyArithmetic(total: nat, shared: nat, onReads: nat, onWrites: nat, n: nat, most: nat, r: nat, w: nat)
    requires total <= shared + onReads + onWrites && shared <= most && onReads <= n * r && onWrites <= n * w
    ensures total <= most + n * (r + w)
  {
    assert n * r + n * w == n * (r + w);
  }

  /**
   Over both routes one key gets at most the larger of its two limits from the
   shared window and, from every one of n replicas, one less than twice each of
   them; and as many more as drew a member already drawn.
   */
  lemma KeyAllowance(limits: Limits, arrivals: seq<Arrival>, n: nat, req: Request, lo: int)
    requires Clocked(arrivals) && forall i :: 0 <= i < |arrivals| ==> arrivals[i].replica < n
    ensures var r, w := FixedWindow.Most(LocalOn(limits, req, Reads)), FixedWindow.Most(LocalOn(limits, req, Writes));
            AdmittedOn(limits, arrivals, KeyOf(req), lo, lo + WINDOW_MS)
            <= MostShared(limits, req) + Repeats(arrivals, KeyOf(req), lo) + n * (r + w)
  {
    var k, hi, most, l, l' := KeyOf(req), lo + WINDOW_MS, MostShared(limits, req), LocalOn(limits, req, Reads), LocalOn(limits, req, Writes);
    AdmissionsOnAKey(limits, arrivals, n, req, lo, hi);
    SharedBound(arrivals, k, most, lo);
    LocalTotalBound(arrivals, n, Reads, k, l, lo);
    LocalTotalBound(arrivals, n, Writes, k, l', lo);
    KeyArithmetic(AdmittedOn(limits, arrivals, k, lo, hi), AdmittedIn(SharedLog(arrivals, most), k, lo, hi),
                  LocalTotal(arrivals, n, Reads, k, l, lo, hi), LocalTotal(arrivals, n, Writes, k, l', lo, hi),
                  n, most + Repeats(arrivals, k, lo), FixedWindow.Most(l), FixedWindow.Most(l'));
  }
}
