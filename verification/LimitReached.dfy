/**
 The allowances of Limited are the least there are: runs of requests on one key,
 over any number of replicas with Redis down and then back, that get all of them.
 */
module LimitReached {
  import opened Common
  import opened RateCounting
  import opened Limited
  import FixedWindow
  import SlidingWindow

  /** When, at which replica, behind which route and with what reply a request on the key arrives. */
  datatype Slot = Slot(at: int, replica: nat, route: Route, reply: Reply)

  /** A nonce no other place of a run has. */
  function Nth(i: nat): string {
    seq(i, _ => 'n')
  }

  function Asked(req: Request, slots: seq<Slot>): (arrivals: seq<Arrival>)
    ensures |arrivals| == |slots|
  {
    seq(|slots|, i requires 0 <= i < |slots| => Arrival(OnRoute(req, slots[i].route), slots[i].at, Nth(i), slots[i].replica, slots[i].reply))
  }

  function Same(x: Slot, k: nat): (slots: seq<Slot>)
    ensures |slots| == k && forall i :: 0 <= i < k ==> slots[i] == x
  {
    seq(k, _ => x)
  }

  /** k requests behind a route of each of n replicas, Redis down. */
  function Everywhere(n: nat, at: int, route: Route, k: nat): seq<Slot> {
    if n == 0 then [] else Everywhere(n - 1, at, route, k) + Same(Slot(at, n - 1, route, Down), k)
  }

  lemma AskedInit(req: Request, slots: seq<Slot>)
    requires slots != []
    ensures Init(Asked(req, slots)) == Asked(req, Init(slots))
    ensures Last(Asked(req, slots))
         == Arrival(OnRoute(req, Last(slots).route), Last(slots).at, Nth(|slots| - 1), Last(slots).replica, Last(slots).reply)
  {}

  // ---- What each counter sees ----

  /** The hits of the limiter at a place. */
  function HitsAt(slots: seq<Slot>, p: Place, key: string): seq<FixedWindow.Hit> {
    if slots == [] then []
    else
      HitsAt(Init(slots), p, key)
      + if Last(slots).reply == Answered || Place(Last(slots).replica, Last(slots).route) != p then []
        else [FixedWindow.Hit(key, Last(slots).at)]
  }

  lemma {:induction false} LocalHitsAre(req: Request, slots: seq<Slot>, p: Place)
    ensures LocalHits(Asked(req, slots), p) == HitsAt(slots, p, KeyOf(req))
  {
    if slots != [] {
      AskedInit(req, slots);
      LocalHitsAre(req, Init(slots), p);
    }
  }

  lemma {:induction false} HitsAtConcat(a: seq<Slot>, b: seq<Slot>, p: Place, key: string)
    ensures HitsAt(a + b, p, key) == HitsAt(a, p, key) + HitsAt(b, p, key)
  {
    if b == [] {
      assert a + b == a;
    } else {
      assert Init(a + b) == a + Init(b) && Last(a + b) == Last(b);
      HitsAtConcat(a, Init(b), p, key);
    }
  }

  lemma {:induction false} HitsAtSame(x: Slot, k: nat, p: Place, key: string)
    ensures HitsAt(Same(x, k), p, key)
         == if x.reply == Answered || Place(x.replica, x.route) != p then [] else FixedWindow.Burst(key, x.at, k)
  {
    if k > 0 {
      assert Init(Same(x, k)) == Same(x, k - 1) && Last(Same(x, k)) == x;
      HitsAtSame(x, k - 1, p, key);
      assert FixedWindow.Burst(key, x.at, k - 1) + [FixedWindow.Hit(key, x.at)] == FixedWindow.Burst(key, x.at, k);
    }
  }

  lemma {:induction false} HitsEverywhere(n: nat, at: int, route: Route, k: nat, p: Place, key: string)
    ensures HitsAt(Everywhere(n, at, route, k), p, key)
         == if p.replica < n && p.route == route then FixedWindow.Burst(key, at, k) else []
  {
    if n > 0 {
      HitsEverywhere(n - 1, at, route, k, p, key);
      HitsAtConcat(Everywhere(n - 1, at, route, k), Same(Slot(at, n - 1, route, Down), k), p, key);
      HitsAtSame(Slot(at, n - 1, route, Down), k, p, key);
      JoinsNothing(FixedWindow.Burst(key, at, k));
    }
  }

  lemma JoinsNothing(hits: seq<FixedWindow.Hit>)
    ensures hits + [] == hits && [] + hits == hits
  {}

  function AnsweredIn(slots: seq<Slot>): nat {
    if slots == [] then 0 else AnsweredIn(Init(slots)) + if Last(slots).reply == Answered then 1 else 0
  }

  ghost predicate NoneLost(slots: seq<Slot>) {
    forall i :: 0 <= i < |slots| ==> slots[i].reply != LostReply
  }

  /** The shared counter sees the answered requests, each at its time. */
  lemma {:induction false} SharedHitsAre(req: Request, slots: seq<Slot>, lo: int, hi: int)
    requires NoneLost(slots) && forall i :: 0 <= i < |slots| && slots[i].reply == Answered ==> lo <= slots[i].at < hi
    ensures var hits := SharedHits(Asked(req, slots));
            && |hits| == AnsweredIn(slots)
            && forall i :: 0 <= i < |hits| ==> hits[i].answered && hits[i].key == KeyOf(req) && lo <= hits[i].at < hi
  {
    if slots != [] {
      AskedInit(req, slots);
      assert forall i :: 0 <= i < |slots| - 1 ==> Init(slots)[i] == slots[i];
      assert Last(slots) == slots[|slots| - 1];
      SharedHitsAre(req, Init(slots), lo, hi);
    }
  }

  lemma {:induction false} AnsweredConcat(a: seq<Slot>, b: seq<Slot>)
    ensures AnsweredIn(a + b) == AnsweredIn(a) + AnsweredIn(b)
  {
    if b == [] {
      assert a + b == a;
    } else {
      assert Init(a + b) == a + Init(b) && Last(a + b) == Last(b);
      AnsweredConcat(a, Init(b));
    }
  }

  lemma {:induction false} AnsweredSame(x: Slot, k: nat)
    ensures AnsweredIn(Same(x, k)) == if x.reply == Answered then k else 0
  {
    if k > 0 {
      assert Init(Same(x, k)) == Same(x, k - 1) && Last(Same(x, k)) == x;
      AnsweredSame(x, k - 1);
    }
  }

  ghost predicate AllAt(slots: seq<Slot>, n: nat, at: int) {
    forall i :: 0 <= i < |slots| ==> slots[i].at == at && slots[i].replica < n && slots[i].reply == Down
  }

  ghost predicate AllOn(slots: seq<Slot>, route: Route) {
    forall i :: 0 <= i < |slots| ==> slots[i].route == route
  }

  lemma {:induction false} EverywhereIs(n: nat, at: int, route: Route, k: nat)
    ensures AllAt(Everywhere(n, at, route, k), n, at) && AllOn(Everywhere(n, at, route, k), route)
    ensures AnsweredIn(Everywhere(n, at, route, k)) == 0 && (k == 0 ==> Everywhere(n, at, route, k) == [])
  {
    if n > 0 {
      EverywhereIs(n - 1, at, route, k);
      AnsweredConcat(Everywhere(n - 1, at, route, k), Same(Slot(at, n - 1, route, Down), k));
      AnsweredSame(Slot(at, n - 1, route, Down), k);
    }
  }

  // ---- Counted exactly ----

  lemma SharedIsAdmitted(limits: Limits, arrivals: seq<Arrival>, req: Request, s: nat, lo: int, hi: int)
    requires arrivals != [] && Last(arrivals).req == req && s <= SharedCap(limits, req)
    requires SharedLetsIn(arrivals, KeyOf(req), s, lo, hi)
    ensures Admits(Decided(limits, arrivals), KeyOf(req), req.route, lo, hi)
  {
    SharedDefined(arrivals);
    var a := Last(arrivals);
    assert SlidingWindow.Member(a.at, a.nonce) in FleetAfter(arrivals).db[KeyOf(req)].members;
  }

  lemma LocalIsAdmitted(limits: Limits, arrivals: seq<Arrival>, req: Request, l: nat, lo: int, hi: int)
    requires arrivals != [] && Last(arrivals).req == req && l <= LocalCap(limits, req)
    requires LocalLetsIn(arrivals, PlaceOf(Last(arrivals)), KeyOf(req), l, lo, hi)
    ensures Admits(Decided(limits, arrivals), KeyOf(req), req.route, lo, hi)
  {
    SharedDefined(arrivals);
  }

  lemma SumAt(f: nat -> nat, g: nat -> nat, n: nat, at: nat, gain: nat)
    requires forall i: nat :: g(i) == f(i) + if i == at then gain else 0
    ensures Sum(g, n) <= Sum(f, n) + gain
    ensures at >= n ==> Sum(g, n) == Sum(f, n)
  {
    if n > 0 {
      SumAt(f, g, n - 1, at, gain);
    }
  }

  lemma LocalTotalGains(arrivals: seq<Arrival>, n: nat, route: Route, key: string, cap: int, lo: int, hi: int)
    requires arrivals != []
    ensures LocalTotal(arrivals, n, route, key, cap, lo, hi)
         <= LocalTotal(Init(arrivals), n, route, key, cap, lo, hi)
          + One(LocalLetsIn(arrivals, Place(Last(arrivals).replica, route), key, cap, lo, hi))
  {
    var f, g := LocalShares(Init(arrivals), route, key, cap, lo, hi), LocalShares(arrivals, route, key, cap, lo, hi);
    var at := Last(arrivals).replica;
    var gain := One(LocalLetsIn(arrivals, Place(at, route), key, cap, lo, hi));
    forall r: nat ensures g(r) == f(r) + if r == at then gain else 0 {
      LocalLogStep(arrivals, Place(r, route), cap, key, lo, hi);
    }
    SumAt(f, g, n, at, gain);
  }

  /** What is let in behind each route and by the shared counter, counted up to these numbers. */
  datatype Shares = Shares(onReads: nat, onWrites: nat, shared: nat, top: Route)

  /** No more than the limits allow; the shared counter's share is spent behind one route. */
  predicate Allowed(limits: Limits, req: Request, x: Shares) {
    x.onReads <= LocalOn(limits, req, Reads) && x.onWrites <= LocalOn(limits, req, Writes) && x.shared <= SharedOn(limits, req, x.top)
  }

  /** What the counters let in of a run. */
  function LetIn(arrivals: seq<Arrival>, n: nat, key: string, x: Shares, lo: int, hi: int): nat {
    AdmittedIn(SharedLog(arrivals, x.shared), key, lo, hi)
    + LocalTotal(arrivals, n, Reads, key, x.onReads, lo, hi) + LocalTotal(arrivals, n, Writes, key, x.onWrites, lo, hi)
  }

  lemma LetInIsAdmitted(limits: Limits, arrivals: seq<Arrival>, req: Request, x: Shares, lo: int, hi: int)
    requires arrivals != [] && Allowed(limits, req, x) && Last(arrivals).req == OnRoute(req, Last(arrivals).req.route)
    requires Last(arrivals).reply == Answered ==> Last(arrivals).req.route == x.top
    ensures var (k, a) := (KeyOf(req), Last(arrivals));
            One(Admits(Decided(limits, arrivals), k, a.req.route, lo, hi))
            >= One(SharedLetsIn(arrivals, k, x.shared, lo, hi))
             + One(LocalLetsIn(arrivals, Place(a.replica, Reads), k, x.onReads, lo, hi))
             + One(LocalLetsIn(arrivals, Place(a.replica, Writes), k, x.onWrites, lo, hi))
  {
    var (k, a) := (KeyOf(req), Last(arrivals));
    if SharedLetsIn(arrivals, k, x.shared, lo, hi) {
      SharedIsAdmitted(limits, arrivals, a.req, x.shared, lo, hi);
    }
    if LocalLetsIn(arrivals, Place(a.replica, Reads), k, x.onReads, lo, hi) {
      LocalIsAdmitted(limits, arrivals, a.req, x.onReads, lo, hi);
    }
    if LocalLetsIn(arrivals, Place(a.replica, Writes), k, x.onWrites, lo, hi) {
      LocalIsAdmitted(limits, arrivals, a.req, x.onWrites, lo, hi);
    }
  }

  lemma CountedStep(limits: Limits, arrivals: seq<Arrival>, n: nat, req: Request, k: string, x: Shares, lo: int, hi: int)
    requires arrivals != [] && Allowed(limits, req, x) && Last(arrivals).req == OnRoute(req, Last(arrivals).req.route) && k == KeyOf(req)
    requires Last(arrivals).reply == Answered ==> Last(arrivals).req.route == x.top
    ensures AdmittedOn(limits, arrivals, k, lo, hi) - AdmittedOn(limits, Init(arrivals), k, lo, hi)
         >= LetIn(arrivals, n, k, x, lo, hi) - LetIn(Init(arrivals), n, k, x, lo, hi)
  {
    SharedLogStep(arrivals, x.shared, k, lo, hi);
    LocalTotalGains(arrivals, n, Reads, k, x.onReads, lo, hi);
    LocalTotalGains(arrivals, n, Writes, k, x.onWrites, lo, hi);
    AdmittedOnGain(limits, arrivals, k, lo, hi);
    LetInIsAdmitted(limits, arrivals, req, x, lo, hi);
  }

  ghost predicate AnsweredOn(slots: seq<Slot>, top: Route) {
    forall i :: 0 <= i < |slots| && slots[i].reply == Answered ==> slots[i].route == top
  }

  /** What the counters let in was admitted. */
  lemma {:induction false} CountedIsAdmitted(limits: Limits, slots: seq<Slot>, n: nat, req: Request, x: Shares, lo: int, hi: int)
    requires Allowed(limits, req, x) && AnsweredOn(slots, x.top)
    ensures AdmittedOn(limits, Asked(req, slots), KeyOf(req), lo, hi) >= LetIn(Asked(req, slots), n, KeyOf(req), x, lo, hi)
  {
    var arrivals := Asked(req, slots);
    if slots == [] {
      NothingYet(arrivals, n, Reads, KeyOf(req), x.onReads, lo, hi);
      NothingYet(arrivals, n, Writes, KeyOf(req), x.onWrites, lo, hi);
    } else {
      AskedInit(req, slots);
      assert Last(slots) == slots[|slots| - 1] && forall i :: 0 <= i < |slots| - 1 ==> Init(slots)[i] == slots[i];
      CountedIsAdmitted(limits, Init(slots), n, req, x, lo, hi);
      CountedStep(limits, arrivals, n, req, KeyOf(req), x, lo, hi);
    }
  }

  lemma NothingYet(arrivals: seq<Arrival>, n: nat, route: Route, key: string, cap: int, lo: int, hi: int)
    requires arrivals == []
    ensures LocalTotal(arrivals, n, route, key, cap, lo, hi) == 0
  {
    SumIs(LocalShares(arrivals, route, key, cap, lo, hi), n, 0);
  }

  lemma SumIs(f: nat -> nat, n: nat, each: nat)
    requires forall r: nat :: r < n ==> f(r) == each
    ensures Sum(f, n) == n * each
  {
    if n > 0 {
      SumIs(f, n - 1, each);
      assert n * each == (n - 1) * each + each;
    }
  }

  // ---- The run ----

  /** At one time, so many behind each route of every replica, Redis down. */
  function Phase(n: nat, at: int, onReads: nat, onWrites: nat): seq<Slot> {
    Everywhere(n, at, Reads, onReads) + Everywhere(n, at, Writes, onWrites)
  }

  function First(cap: nat): nat {
    if cap == 0 then 0 else 1
  }

  function OpeningPhase(n: nat, at: int, x: Shares): seq<Slot> {
    Phase(n, at, First(x.onReads), First(x.onWrites))
  }

  function FillingPhase(n: nat, at: int, x: Shares): seq<Slot> {
    Phase(n, at + WINDOW_MS - 1, x.onReads - First(x.onReads), x.onWrites - First(x.onWrites))
  }

  function LastPhase(n: nat, at: int, x: Shares): seq<Slot> {
    Phase(n, at + WINDOW_MS, x.onReads, x.onWrites)
  }

  function SharedPhase(at: int, x: Shares): seq<Slot> {
    Same(Slot(at + WINDOW_MS, 0, x.top, Answered), x.shared)
  }

  /**
   Redis is down: every window is opened, filled at its end and a limit more spent as
   it closes; then Redis answers a limit's worth.
   */
  function WorstSlots(n: nat, at: int, x: Shares): seq<Slot> {
    OpeningPhase(n, at, x) + FillingPhase(n, at, x) + LastPhase(n, at, x) + SharedPhase(at, x)
  }

  function Most(cap: nat): nat {
    FixedWindow.Most(cap)
  }

  function CapOn(x: Shares, route: Route): nat {
    match route case Reads => x.onReads case Writes => x.onWrites
  }

  lemma PhaseHits(n: nat, at: int, onReads: nat, onWrites: nat, p: Place, key: string)
    requires p.replica < n
    ensures HitsAt(Phase(n, at, onReads, onWrites), p, key) == FixedWindow.Burst(key, at, if p.route == Reads then onReads else onWrites)
  {
    HitsEverywhere(n, at, Reads, onReads, p, key);
    HitsEverywhere(n, at, Writes, onWrites, p, key);
    HitsAtConcat(Everywhere(n, at, Reads, onReads), Everywhere(n, at, Writes, onWrites), p, key);
    JoinsNothing(FixedWindow.Burst(key, at, if p.route == Reads then onReads else onWrites));
  }

  lemma FourParts(a: seq<Slot>, b: seq<Slot>, c: seq<Slot>, d: seq<Slot>, p: Place, key: string)
    ensures HitsAt(a + b + c + d, p, key) == HitsAt(a, p, key) + HitsAt(b, p, key) + HitsAt(c, p, key) + HitsAt(d, p, key)
  {
    HitsAtConcat(a, b, p, key);
    HitsAtConcat(a + b, c, p, key);
    HitsAtConcat(a + b + c, d, p, key);
  }

  /** One window opened, filled and left behind. */
  function ThreeOf(key: string, at: int, cap: nat): seq<FixedWindow.Hit> {
    FixedWindow.Burst(key, at, First(cap)) + FixedWindow.Burst(key, at + WINDOW_MS - 1, cap - First(cap))
    + FixedWindow.Burst(key, at + WINDOW_MS, cap)
  }

  lemma OpeningHits(n: nat, at: int, x: Shares, p: Place, key: string)
    requires p.replica < n
    ensures HitsAt(OpeningPhase(n, at, x), p, key) == FixedWindow.Burst(key, at, First(CapOn(x, p.route)))
  {
    PhaseHits(n, at, First(x.onReads), First(x.onWrites), p, key);
  }

  lemma FillingHits(n: nat, at: int, x: Shares, p: Place, key: string)
    requires p.replica < n
    ensures HitsAt(FillingPhase(n, at, x), p, key)
         == FixedWindow.Burst(key, at + WINDOW_MS - 1, CapOn(x, p.route) - First(CapOn(x, p.route)))
  {
    PhaseHits(n, at + WINDOW_MS - 1, x.onReads - First(x.onReads), x.onWrites - First(x.onWrites), p, key);
  }

  lemma LastHits(n: nat, at: int, x: Shares, p: Place, key: string)
    requires p.replica < n
    ensures HitsAt(LastPhase(n, at, x), p, key) == FixedWindow.Burst(key, at + WINDOW_MS, CapOn(x, p.route))
  {
    PhaseHits(n, at + WINDOW_MS, x.onReads, x.onWrites, p, key);
  }

  lemma SharedPhaseHits(at: int, x: Shares, p: Place, key: string)
    ensures HitsAt(SharedPhase(at, x), p, key) == []
  {
    HitsAtSame(Slot(at + WINDOW_MS, 0, x.top, Answered), x.shared, p, key);
  }

  lemma FourHits(slots: seq<Slot>, a: seq<Slot>, b: seq<Slot>, c: seq<Slot>, d: seq<Slot>, p: Place, key: string, hits: seq<FixedWindow.Hit>)
    requires slots == a + b + c + d && HitsAt(d, p, key) == []
    requires hits == HitsAt(a, p, key) + HitsAt(b, p, key) + HitsAt(c, p, key)
    ensures HitsAt(slots, p, key) == hits
  {
    FourParts(a, b, c, d, p, key);
    JoinsNothing(hits);
  }

  lemma WorstHits(n: nat, at: int, x: Shares, p: Place, key: string)
    requires p.replica < n
    ensures HitsAt(WorstSlots(n, at, x), p, key) == ThreeOf(key, at, CapOn(x, p.route))
  {
    var cap := CapOn(x, p.route);
    OpeningHits(n, at, x, p, key);
    FillingHits(n, at, x, p, key);
    LastHits(n, at, x, p, key);
    SharedPhaseHits(at, x, p, key);
    FourHits(WorstSlots(n, at, x), OpeningPhase(n, at, x), FillingPhase(n, at, x), LastPhase(n, at, x), SharedPhase(at, x), p, key,
             ThreeOf(key, at, cap));
  }

  lemma ThreeGetTheMost(key: string, at: int, cap: nat)
    ensures AdmittedIn(FixedWindow.Log(WINDOW_MS, ThreeOf(key, at, cap), cap, true), key, at + 1, at + 1 + WINDOW_MS)
         == Most(cap)
  {
    if cap == 0 {
      assert ThreeOf(key, at, cap) == [];
    } else {
      assert ThreeOf(key, at, cap) == FixedWindow.ThreeBursts(WINDOW_MS, key, at, cap);
      FixedWindow.MostIsReached(WINDOW_MS, key, at, cap);
    }
  }

  ghost predicate Between(slots: seq<Slot>, lo: int, hi: int) {
    forall i :: 0 <= i < |slots| ==> lo <= slots[i].at <= hi
  }

  ghost predicate InTime(slots: seq<Slot>) {
    forall i, j :: 0 <= i < j < |slots| ==> slots[i].at <= slots[j].at
  }

  lemma InTimeConcat(a: seq<Slot>, b: seq<Slot>, lo: int, mid: int, hi: int)
    requires InTime(a) && InTime(b) && Between(a, lo, mid) && Between(b, mid, hi) && lo <= mid <= hi
    ensures InTime(a + b) && Between(a + b, lo, hi)
  {}

  lemma PartsInTime(a: seq<Slot>, b: seq<Slot>, c: seq<Slot>, d: seq<Slot>, at: int, filled: int, last: int)
    requires at <= filled <= last && Between(a, at, at) && Between(b, filled, filled) && Between(c, last, last) && Between(d, last, last)
    ensures InTime(a + b + c + d) && Between(a + b + c + d, at, last)
  {
    InTimeConcat(a, b, at, filled, filled);
    InTimeConcat(a + b, c, at, last, last);
    InTimeConcat(a + b + c, d, at, last, last);
  }

  /** Replicas there are, no reply lost, answered only at the end and behind one route. */
  ghost predicate Fair(slots: seq<Slot>, n: nat, last: int, top: Route) {
    forall i :: 0 <= i < |slots| ==>
      && slots[i].replica < n && slots[i].reply != LostReply
      && (slots[i].reply == Answered ==> slots[i].at == last && slots[i].route == top)
  }

  lemma PhaseIs(n: nat, at: int, onReads: nat, onWrites: nat)
    ensures AllAt(Phase(n, at, onReads, onWrites), n, at) && AnsweredIn(Phase(n, at, onReads, onWrites)) == 0
    ensures onWrites == 0 ==> AllOn(Phase(n, at, onReads, onWrites), Reads)
    ensures onReads == 0 ==> AllOn(Phase(n, at, onReads, onWrites), Writes)
  {
    EverywhereIs(n, at, Reads, onReads);
    EverywhereIs(n, at, Writes, onWrites);
    AnsweredConcat(Everywhere(n, at, Reads, onReads), Everywhere(n, at, Writes, onWrites));
  }

  lemma FairParts(a: seq<Slot>, b: seq<Slot>, c: seq<Slot>, d: seq<Slot>, n: nat, at: int, top: Route)
    requires AllAt(a, n, at) && AllAt(b, n, at + WINDOW_MS - 1) && AllAt(c, n, at + WINDOW_MS)
    requires n >= 1 && forall i :: 0 <= i < |d| ==> d[i] == Slot(at + WINDOW_MS, 0, top, Answered)
    ensures Fair(a + b + c + d, n, at + WINDOW_MS, top)
  {}

  lemma PartsOn(a: seq<Slot>, b: seq<Slot>, c: seq<Slot>, d: seq<Slot>, route: Route)
    requires AllOn(a, route) && AllOn(b, route) && AllOn(c, route) && AllOn(d, route)
    ensures AllOn(a + b + c + d, route)
  {}

  lemma PhasesAre(n: nat, at: int, x: Shares)
    ensures AllAt(OpeningPhase(n, at, x), n, at) && AnsweredIn(OpeningPhase(n, at, x)) == 0
    ensures AllAt(FillingPhase(n, at, x), n, at + WINDOW_MS - 1) && AnsweredIn(FillingPhase(n, at, x)) == 0
    ensures AllAt(LastPhase(n, at, x), n, at + WINDOW_MS) && AnsweredIn(LastPhase(n, at, x)) == 0
    ensures AnsweredIn(SharedPhase(at, x)) == x.shared
  {
    PhaseIs(n, at, First(x.onReads), First(x.onWrites));
    PhaseIs(n, at + WINDOW_MS - 1, x.onReads - First(x.onReads), x.onWrites - First(x.onWrites));
    PhaseIs(n, at + WINDOW_MS, x.onReads, x.onWrites);
    AnsweredSame(Slot(at + WINDOW_MS, 0, x.top, Answered), x.shared);
  }

  lemma WorstIsFair(n: nat, at: int, x: Shares)
    requires n >= 1
    ensures var slots := WorstSlots(n, at, x);
            && Fair(slots, n, at + WINDOW_MS, x.top) && InTime(slots) && Between(slots, at, at + WINDOW_MS)
            && AnsweredIn(slots) == x.shared
  {
    var a, b, c, d := OpeningPhase(n, at, x), FillingPhase(n, at, x), LastPhase(n, at, x), SharedPhase(at, x);
    PhasesAre(n, at, x);
    PartsInTime(a, b, c, d, at, at + WINDOW_MS - 1, at + WINDOW_MS);
    FairParts(a, b, c, d, n, at, x.top);
    PartsAnswered(a, b, c, d);
  }

  lemma PartsAnswered(a: seq<Slot>, b: seq<Slot>, c: seq<Slot>, d: seq<Slot>)
    ensures AnsweredIn(a + b + c + d) == AnsweredIn(a) + AnsweredIn(b) + AnsweredIn(c) + AnsweredIn(d)
  {
    AnsweredConcat(a, b);
    AnsweredConcat(a + b, c);
    AnsweredConcat(a + b + c, d);
  }

  /** Shares of one route are asked for on it. */
  lemma WorstIsOn(n: nat, at: int, x: Shares, route: Route)
    requires x.top == route && CapOn(x, OtherRoute(route)) == 0
    ensures AllOn(WorstSlots(n, at, x), route)
  {
    PhaseIs(n, at, First(x.onReads), First(x.onWrites));
    PhaseIs(n, at + WINDOW_MS - 1, x.onReads - First(x.onReads), x.onWrites - First(x.onWrites));
    PhaseIs(n, at + WINDOW_MS, x.onReads, x.onWrites);
    PartsOn(OpeningPhase(n, at, x), FillingPhase(n, at, x), LastPhase(n, at, x), SharedPhase(at, x), route);
  }

  lemma AskedIsClocked(req: Request, slots: seq<Slot>, at: int)
    requires InTime(slots) && Between(slots, at, at + WINDOW_MS) && at >= 0
    ensures Clocked(Asked(req, slots)) && DistinctNonces(Asked(req, slots))
  {
    var arrivals := Asked(req, slots);
    forall i, j | 0 <= i < j < |arrivals| ensures !SameMember(arrivals[i], arrivals[j]) {
      assert |arrivals[i].nonce| == i && |arrivals[j].nonce| == j;
    }
  }

  lemma WorstLocal(req: Request, n: nat, at: int, x: Shares, route: Route)
    ensures LocalTotal(Asked(req, WorstSlots(n, at, x)), n, route, KeyOf(req), CapOn(x, route), at + 1, at + 1 + WINDOW_MS)
         == n * Most(CapOn(x, route))
  {
    var arrivals, key, cap := Asked(req, WorstSlots(n, at, x)), KeyOf(req), CapOn(x, route);
    var f := LocalShares(arrivals, route, key, cap, at + 1, at + 1 + WINDOW_MS);
    forall r: nat | r < n ensures f(r) == Most(cap) {
      LocalHitsAre(req, WorstSlots(n, at, x), Place(r, route));
      WorstHits(n, at, x, Place(r, route), key);
      ThreeGetTheMost(key, at, cap);
    }
    SumIs(f, n, Most(cap));
  }

  lemma WorstShared(req: Request, slots: seq<Slot>, n: nat, at: int, s: nat, top: Route)
    requires Fair(slots, n, at + WINDOW_MS, top) && AnsweredIn(slots) == s && Clocked(Asked(req, slots))
    ensures AdmittedIn(SharedLog(Asked(req, slots), s), KeyOf(req), at + 1, at + 1 + WINDOW_MS) == s
  {
    SharedHitsAre(req, slots, at + 1, at + 1 + WINDOW_MS);
    SharedTimesClocked(Asked(req, slots));
    SlidingWindow.FewAreAdmitted(WINDOW_MS, SharedHits(Asked(req, slots)), KeyOf(req), s, at + 1, at + 1 + WINDOW_MS);
  }

  ghost predicate FairRun(arrivals: seq<Arrival>, n: nat) {
    Clocked(arrivals) && DistinctNonces(arrivals) && forall i :: 0 <= i < |arrivals| ==> arrivals[i].replica < n
  }

  /** The run gets its share from every counter. */
  lemma WorstGets(limits: Limits, n: nat, req: Request, at: int, x: Shares) returns (arrivals: seq<Arrival>)
    requires Allowed(limits, req, x) && n >= 1 && at >= 0
    ensures FairRun(arrivals, n) && forall i :: 0 <= i < |arrivals| ==> arrivals[i].req.isWrite == req.isWrite
    ensures AdmittedOn(limits, arrivals, KeyOf(req), at + 1, at + 1 + WINDOW_MS) >= n * (Most(x.onReads) + Most(x.onWrites)) + x.shared
    ensures (x.top == req.route && CapOn(x, OtherRoute(req.route)) == 0) ==>
              AdmittedOn(limits, arrivals, KeyOf(req), at + 1, at + 1 + WINDOW_MS)
              == AdmittedAt(limits, arrivals, KeyOf(req), req.route, at + 1, at + 1 + WINDOW_MS)
  {
    var slots := WorstSlots(n, at, x);
    arrivals := Asked(req, slots);
    WorstIsFair(n, at, x);
    AskedIsFair(req, slots, n, at, x.top);
    WorstCounts(limits, n, req, at, x, slots);
    if x.top == req.route && CapOn(x, OtherRoute(req.route)) == 0 {
      WorstIsOn(n, at, x, req.route);
      AllOnOneRoute(limits, req, slots, at + 1, at + 1 + WINDOW_MS);
    }
  }

  lemma AskedIsFair(req: Request, slots: seq<Slot>, n: nat, at: int, top: Route)
    requires InTime(slots) && Between(slots, at, at + WINDOW_MS) && at >= 0 && Fair(slots, n, at + WINDOW_MS, top)
    ensures FairRun(Asked(req, slots), n) && forall i :: 0 <= i < |slots| ==> Asked(req, slots)[i].req.isWrite == req.isWrite
  {
    AskedIsClocked(req, slots, at);
  }

  lemma WorstCounts(limits: Limits, n: nat, req: Request, at: int, x: Shares, slots: seq<Slot>)
    requires Allowed(limits, req, x) && slots == WorstSlots(n, at, x) && AnsweredIn(slots) == x.shared
    requires Fair(slots, n, at + WINDOW_MS, x.top) && Clocked(Asked(req, slots))
    ensures AdmittedOn(limits, Asked(req, slots), KeyOf(req), at + 1, at + 1 + WINDOW_MS)
         >= n * (Most(x.onReads) + Most(x.onWrites)) + x.shared
  {
    CountedIsAdmitted(limits, slots, n, req, x, at + 1, at + 1 + WINDOW_MS);
    WorstLocal(req, n, at, x, Reads);
    WorstLocal(req, n, at, x, Writes);
    WorstShared(req, slots, n, at, x.shared, x.top);
    Spread(n, Most(x.onReads), Most(x.onWrites));
  }

  function OtherRoute(route: Route): Route {
    if route == Reads then Writes else Reads
  }

  lemma {:induction false} NothingOffRoute(limits: Limits, arrivals: seq<Arrival>, route: Route, key: string, lo: int, hi: int)
    requires forall i :: 0 <= i < |arrivals| ==> arrivals[i].req.route != route
    ensures AdmittedAt(limits, arrivals, key, route, lo, hi) == 0
  {
    if arrivals != [] {
      assert forall i :: 0 <= i < |arrivals| - 1 ==> Init(arrivals)[i] == arrivals[i];
      assert Last(arrivals) == arrivals[|arrivals| - 1];
      NothingOffRoute(limits, Init(arrivals), route, key, lo, hi);
      DecidedRoute(limits, arrivals);
    }
  }

  function OneRoute(limits: Limits, req: Request): Shares {
    var l, s := LocalCap(limits, req), SharedCap(limits, req);
    match req.route case Reads => Shares(l, 0, s, Reads) case Writes => Shares(0, l, s, Writes)
  }

  /**
   The bound of FleetAllowance is reached, for any limits and any number of replicas:
   a run with distinct nonces in which a key behind a route gets all of it in one minute.
   */
  lemma AllowanceIsReached(limits: Limits, n: nat, req: Request, at: int) returns (arrivals: seq<Arrival>)
    requires n >= 1 && at >= 0
    ensures FairRun(arrivals, n)
    ensures AdmittedAt(limits, arrivals, KeyOf(req), req.route, at + 1, at + 1 + WINDOW_MS)
         == n * Most(LocalCap(limits, req)) + SharedCap(limits, req)
  {
    var x := OneRoute(limits, req);
    arrivals := OneRouteGets(limits, n, req, at, x);
    OneRouteIsAllowed(limits, req);
    Times(n, Most(x.onReads) + Most(x.onWrites), Most(LocalCap(limits, req)));
  }

  lemma OneRouteGets(limits: Limits, n: nat, req: Request, at: int, x: Shares) returns (arrivals: seq<Arrival>)
    requires n >= 1 && at >= 0 && x == OneRoute(limits, req)
    ensures FairRun(arrivals, n)
    ensures AdmittedAt(limits, arrivals, KeyOf(req), req.route, at + 1, at + 1 + WINDOW_MS)
         == n * (Most(x.onReads) + Most(x.onWrites)) + x.shared
  {
    OneRouteIsAllowed(limits, req);
    arrivals := WorstGets(limits, n, req, at, x);
    AtMostTheFleets(limits, arrivals, n, req, x, at + 1);
  }

  lemma AtMostTheFleets(limits: Limits, arrivals: seq<Arrival>, n: nat, req: Request, x: Shares, lo: int)
    requires FairRun(arrivals, n) && x == OneRoute(limits, req)
    ensures AdmittedAt(limits, arrivals, KeyOf(req), req.route, lo, lo + WINDOW_MS) <= n * (Most(x.onReads) + Most(x.onWrites)) + x.shared
  {
    OneRouteIsAllowed(limits, req);
    FleetAllowance(limits, arrivals, n, req, lo);
  }

  lemma Times(n: nat, a: nat, b: nat)
    requires a == b
    ensures n * a == n * b
  {}

  lemma OneRouteIsAllowed(limits: Limits, req: Request)
    ensures var x := OneRoute(limits, req);
            && Allowed(limits, req, x) && x.shared == SharedCap(limits, req)
            && x.top == req.route && CapOn(x, OtherRoute(req.route)) == 0
            && Most(x.onReads) + Most(x.onWrites) == Most(LocalCap(limits, req))
  {
    assert OnRoute(req, req.route) == req;
  }

  lemma AllOnOneRoute(limits: Limits, req: Request, slots: seq<Slot>, lo: int, hi: int)
    requires AllOn(slots, req.route)
    ensures AdmittedOn(limits, Asked(req, slots), KeyOf(req), lo, hi) == AdmittedAt(limits, Asked(req, slots), KeyOf(req), req.route, lo, hi)
  {
    NothingOffRoute(limits, Asked(req, slots), OtherRoute(req.route), KeyOf(req), lo, hi);
  }

  function BothRoutes(limits: Limits, req: Request): Shares {
    Shares(LocalOn(limits, req, Reads), LocalOn(limits, req, Writes), MostShared(limits, req),
           if SharedOn(limits, req, Reads) < SharedOn(limits, req, Writes) then Writes else Reads)
  }

  /** So is the bound of KeyAllowance, on a key that write routes and HEADs on read routes share. */
  lemma KeyAllowanceIsReached(limits: Limits, n: nat, req: Request, at: int) returns (arrivals: seq<Arrival>)
    requires n >= 1 && at >= 0 && req.isWrite
    ensures FairRun(arrivals, n) && forall i :: 0 <= i < |arrivals| ==> arrivals[i].req.isWrite
    ensures AdmittedOn(limits, arrivals, KeyOf(req), at + 1, at + 1 + WINDOW_MS)
         == MostShared(limits, req)
          + n * (Most(LocalOn(limits, req, Reads)) + Most(LocalOn(limits, req, Writes)))
  {
    var x := BothRoutes(limits, req);
    arrivals := WorstGets(limits, n, req, at, x);
    AtMostTheKeys(limits, arrivals, n, req, x, at + 1);
  }

  lemma AtMostTheKeys(limits: Limits, arrivals: seq<Arrival>, n: nat, req: Request, x: Shares, lo: int)
    requires FairRun(arrivals, n) && x == BothRoutes(limits, req)
    ensures AdmittedOn(limits, arrivals, KeyOf(req), lo, lo + WINDOW_MS) <= n * (Most(x.onReads) + Most(x.onWrites)) + x.shared
  {
    KeyAllowance(limits, arrivals, n, req, lo);
    NoRepeats(arrivals, KeyOf(req), lo);
  }

  lemma Spread(n: nat, a: nat, b: nat)
    ensures n * a + n * b == n * (a + b)
  {}
}
