/**
 The in-memory fixed-window limiter of app/src/ratelimit.js: one window per key,
 opened by the first hit after the previous one closed, and an amortised sweep
 of closed windows once the map holds more than 5000 of them.
 */
module FixedWindow {
  import opened Common
  import opened RateCounting

  datatype Entry = Entry(count: nat, resetAt: int)
  datatype Hit = Hit(key: string, at: int)
  datatype Verdict = Verdict(allowed: bool, count: nat, remaining: int, retryAfter: int)
  type Windows = map<string, Entry>

  const SWEEP_ABOVE := 5000

  /** Math.max(0, x). */
  function AtLeastZero(x: int): (r: int)
    ensures r >= 0 && r >= x && (r == 0 || r == x)
  {
    if x < 0 then 0 else x
  }

  /** Math.ceil(ms / 1000): the least whole number of seconds covering ms. */
  function CeilSeconds(ms: int): (s: int)
    ensures (s - 1) * 1000 < ms <= s * 1000
  {
    -((-ms) / 1000)
  }

  predicate Open(w: Windows, key: string, now: int) {
    key in w && w[key].resetAt > now
  }

  function Swept(w: Windows, now: int): Windows {
    map k | k in w && Open(w, k, now) :: w[k]
  }

  /** The entry a hit leaves behind for its key. */
  function Counted(w: Windows, windowMs: int, key: string, now: int): Entry {
    if Open(w, key, now) then Entry(w[key].count + 1, w[key].resetAt) else Entry(1, now + windowMs)
  }

  function BeforeCounting(w: Windows, now: int, sweeping: bool): Windows {
    if sweeping && |w| > SWEEP_ABOVE then Swept(w, now) else w
  }

  function After(w: Windows, windowMs: int, h: Hit, sweeping: bool): Windows {
    var w' := BeforeCounting(w, h.at, sweeping);
    w'[h.key := Counted(w', windowMs, h.key, h.at)]
  }

  function VerdictOn(limit: int, e: Entry, now: int): Verdict {
    Verdict(e.count <= limit, e.count, AtLeastZero(limit - e.count), CeilSeconds(e.resetAt - now))
  }

  class RateLimiter {
    const limit: int
    const windowMs: int
    var windows: Windows

    constructor (limit: int, windowMs: int := 60_000)
      ensures this.limit == limit && this.windowMs == windowMs && windows == map[]
    {
      this.limit, this.windowMs, this.windows := limit, windowMs, map[];
    }

    /** Deletes every closed window, visiting the keys in any order. */
    method Sweep(current: int)
      modifies this
      ensures windows == Swept(old(windows), current)
    {
      var todo := windows.Keys;
      ghost var before := windows;
      while todo != {}
        invariant todo <= before.Keys
        invariant windows == map k | k in before && (k in todo || Open(before, k, current)) :: before[k]
        decreases todo
      {
        var key :| key in todo;
        if windows[key].resetAt <= current {
          windows := windows - {key};
        }
        todo := todo - {key};
      }
    }

    method Check(key: string, current: int) returns (v: Verdict)
      modifies this
      ensures windows == After(old(windows), windowMs, Hit(key, current), true)
      ensures v == VerdictOn(limit, windows[key], current)
    {
      if |windows| > SWEEP_ABOVE {
        Sweep(current);
      }
      if key !in windows || windows[key].resetAt <= current {
        windows := windows[key := Entry(0, current + windowMs)];
      }
      var entry := windows[key];
      windows := windows[key := entry.(count := entry.count + 1)];
      var allowed := windows[key].count <= limit;
      v := Verdict(allowed, windows[key].count, AtLeastZero(limit - windows[key].count),
                   CeilSeconds(windows[key].resetAt - current));
    }
  }

  // ---- Whole runs ----

  ghost predicate Nondecreasing(hits: seq<Hit>) {
    forall i, j :: 0 <= i < j < |hits| ==> hits[i].at <= hits[j].at
  }

  function Run(windowMs: int, hits: seq<Hit>, sweeping: bool): Windows {
    if hits == [] then map[] else After(Run(windowMs, Init(hits), sweeping), windowMs, Last(hits), sweeping)
  }

  /** Every answer the limiter gives over a run, in order. */
  function Verdicts(limit: int, windowMs: int, hits: seq<Hit>, sweeping: bool): (vs: seq<Verdict>)
    ensures |vs| == |hits|
  {
    if hits == [] then []
    else
      Verdicts(limit, windowMs, Init(hits), sweeping)
      + [VerdictOn(limit, Run(windowMs, hits, sweeping)[Last(hits).key], Last(hits).at)]
  }

  /** Two maps that show the same open windows at a time, whatever closed ones they still hold. */
  ghost predicate SameOpen(a: Windows, b: Windows, now: int) {
    forall k :: Open(a, k, now) == Open(b, k, now) && (Open(a, k, now) ==> a[k] == b[k])
  }

  lemma HitKeepsSameOpen(a: Windows, b: Windows, windowMs: int, h: Hit, now: int)
    requires SameOpen(a, b, now) && now <= h.at
    ensures SameOpen(After(a, windowMs, h, true), After(b, windowMs, h, false), h.at)
    ensures After(a, windowMs, h, true)[h.key] == After(b, windowMs, h, false)[h.key]
  {
    assert forall k :: Open(a, k, h.at) ==> Open(a, k, now);
    assert forall k :: Open(b, k, h.at) ==> Open(b, k, now);
    var a' := BeforeCounting(a, h.at, true);
    assert SameOpen(a', b, h.at);
    var a'', b'' := After(a, windowMs, h, true), After(b, windowMs, h, false);
    forall k ensures Open(a'', k, h.at) == Open(b'', k, h.at) && (Open(a'', k, h.at) ==> a''[k] == b''[k]) {
      assert k != h.key ==> Open(a'', k, h.at) == Open(a', k, h.at) && Open(b'', k, h.at) == Open(b, k, h.at);
    }
  }

  lemma {:induction false} RunsShowTheSameOpenWindows(windowMs: int, hits: seq<Hit>, now: int)
    requires Nondecreasing(hits)
    requires hits != [] ==> Last(hits).at <= now
    ensures SameOpen(Run(windowMs, hits, true), Run(windowMs, hits, false), now)
  {
    if hits != [] {
      var h := Last(hits);
      RunsShowTheSameOpenWindows(windowMs, Init(hits), h.at);
      var a, b := Run(windowMs, Init(hits), true), Run(windowMs, Init(hits), false);
      HitKeepsSameOpen(a, b, windowMs, h, h.at);
      var a', b' := Run(windowMs, hits, true), Run(windowMs, hits, false);
      assert forall k :: Open(a', k, now) ==> Open(a', k, h.at);
      assert forall k :: Open(b', k, now) ==> Open(b', k, h.at);
    }
  }

  /** Forgetting is invisible: sweeping changes no answer on any run of a nondecreasing clock. */
  lemma {:induction false} SweepingIsInvisible(limit: int, windowMs: int, hits: seq<Hit>)
    requires Nondecreasing(hits)
    ensures Verdicts(limit, windowMs, hits, true) == Verdicts(limit, windowMs, hits, false)
  {
    if hits != [] {
      SweepingIsInvisible(limit, windowMs, Init(hits));
      RunsShowTheSameOpenWindows(windowMs, Init(hits), Last(hits).at);
      HitKeepsSameOpen(Run(windowMs, Init(hits), true), Run(windowMs, Init(hits), false),
                       windowMs, Last(hits), Last(hits).at);
    }
  }

  // ---- The allowance ----

  /** The run as decisions, admitting a hit while its window's count is within cap. */
  function Log(windowMs: int, hits: seq<Hit>, cap: int, sweeping: bool): (log: seq<Outcome>)
    ensures |log| == |hits|
    ensures forall i :: 0 <= i < |hits| ==> log[i].key == hits[i].key && log[i].at == hits[i].at
  {
    if hits == [] then []
    else
      var h := Last(hits);
      Log(windowMs, Init(hits), cap, sweeping)
      + [Outcome(h.key, h.at, Run(windowMs, hits, sweeping)[h.key].count <= cap)]
  }

  /** The log is what Check answers: with cap the limiter's own limit, admitted is allowed. */
  lemma {:induction false} LogIsTheVerdicts(limit: int, windowMs: int, hits: seq<Hit>, cap: int, sweeping: bool, i: nat)
    requires i < |hits|
    ensures var v := Verdicts(limit, windowMs, hits, sweeping)[i];
            && Log(windowMs, hits, cap, sweeping)[i] == Outcome(hits[i].key, hits[i].at, v.count <= cap)
            && v.allowed == (v.count <= limit)
  {
    if i < |hits| - 1 {
      LogIsTheVerdicts(limit, windowMs, Init(hits), cap, sweeping, i);
    }
  }

  lemma LogOfOneMore(windowMs: int, hits: seq<Hit>, h: Hit, cap: int, sweeping: bool, key: string, lo: int, hi: int)
    ensures h.key in Run(windowMs, hits + [h], sweeping)
    ensures AdmittedIn(Log(windowMs, hits + [h], cap, sweeping), key, lo, hi)
         == AdmittedIn(Log(windowMs, hits, cap, sweeping), key, lo, hi)
          + if h.key == key && lo <= h.at < hi && Run(windowMs, hits + [h], sweeping)[h.key].count <= cap then 1 else 0
  {
    assert Init(hits + [h]) == hits;
    assert Init(Log(windowMs, hits + [h], cap, sweeping)) == Log(windowMs, hits, cap, sweeping);
  }

  lemma {:induction false} LogsAgree(windowMs: int, hits: seq<Hit>, cap: int)
    requires Nondecreasing(hits)
    ensures Log(windowMs, hits, cap, true) == Log(windowMs, hits, cap, false)
  {
    if hits != [] {
      LogsAgree(windowMs, Init(hits), cap);
      RunsShowTheSameOpenWindows(windowMs, Init(hits), Last(hits).at);
      HitKeepsSameOpen(Run(windowMs, Init(hits), true), Run(windowMs, Init(hits), false),
                       windowMs, Last(hits), Last(hits).at);
    }
  }

  /** What an entry says about the decisions already taken on its key. */
  ghost predicate EntryAccounts(log: seq<Outcome>, e: Entry, windowMs: int, key: string, cap: nat) {
    var start := e.resetAt - windowMs;
    && e.count >= 1
    && (forall i :: 0 <= i < |log| && log[i].key == key ==> log[i].at < e.resetAt)
    && AdmittedIn(log, key, start, e.resetAt) <= e.count
    && AdmittedIn(log, key, start, e.resetAt) <= cap
    && AdmittedIn(log, key, start - windowMs, start) <= cap
  }

  ghost predicate WindowAccounts(log: seq<Outcome>, w: Windows, windowMs: int, key: string, cap: nat) {
    if key in w then EntryAccounts(log, w[key], windowMs, key, cap)
    else forall i :: 0 <= i < |log| ==> log[i].key != key
  }

  /** A hit inside the open window. */
  lemma EntryAccountsForHit(log: seq<Outcome>, e: Entry, windowMs: int, key: string, cap: nat, at: int)
    requires windowMs > 0 && EntryAccounts(log, e, windowMs, key, cap)
    requires e.resetAt - windowMs <= at < e.resetAt
    ensures EntryAccounts(log + [Outcome(key, at, e.count + 1 <= cap)], Entry(e.count + 1, e.resetAt), windowMs, key, cap)
  {
    var log' := log + [Outcome(key, at, e.count + 1 <= cap)];
    assert Init(log') == log;
  }

  /** A hit that opens a new window over a closed one. */
  lemma NewEntryAccounts(log: seq<Outcome>, w: Windows, windowMs: int, key: string, cap: nat, at: int)
    requires windowMs > 0 && WindowAccounts(log, w, windowMs, key, cap) && !Open(w, key, at)
    ensures EntryAccounts(log + [Outcome(key, at, 1 <= cap)], Entry(1, at + windowMs), windowMs, key, cap)
  {
    var log' := log + [Outcome(key, at, 1 <= cap)];
    assert Init(log') == log;
    AdmittedInNothing(log, key, at, at + windowMs);
    if key in w {
      var e := w[key];
      AdmittedInSplits(log, key, e.resetAt - windowMs, e.resetAt, at);
      AdmittedInNothing(log, key, e.resetAt, at);
      AdmittedInMonotone(log, key, at - windowMs, at, e.resetAt - windowMs, at);
    } else {
      AdmittedInNothing(log, key, at - windowMs, at);
    }
  }

  lemma HitKeepsAccounts(log: seq<Outcome>, w: Windows, windowMs: int, h: Hit, key: string, cap: nat)
    requires windowMs > 0 && WindowAccounts(log, w, windowMs, key, cap)
    requires key in w ==> w[key].resetAt - windowMs <= h.at
    ensures WindowAccounts(log + [Outcome(h.key, h.at, Counted(w, windowMs, h.key, h.at).count <= cap)],
                           After(w, windowMs, h, false), windowMs, key, cap)
  {
    if h.key != key {
      OtherKeyChangesNothing(log, Outcome(h.key, h.at, Counted(w, windowMs, h.key, h.at).count <= cap), key);
    } else if Open(w, key, h.at) {
      EntryAccountsForHit(log, w[key], windowMs, key, cap, h.at);
    } else {
      NewEntryAccounts(log, w, windowMs, key, cap, h.at);
    }
  }

  lemma {:induction false} EveryWindowAccounts(windowMs: int, hits: seq<Hit>, key: string, cap: nat)
    requires windowMs > 0 && Nondecreasing(hits)
    ensures WindowAccounts(Log(windowMs, hits, cap, false), Run(windowMs, hits, false), windowMs, key, cap)
  {
    if hits != [] {
      EveryWindowAccounts(windowMs, Init(hits), key, cap);
      var w := Run(windowMs, Init(hits), false);
      if key in w {
        WindowOpenedBefore(windowMs, Init(hits), key, Last(hits).at);
      }
      HitKeepsAccounts(Log(windowMs, Init(hits), cap, false), w, windowMs, Last(hits), key, cap);
    }
  }

  lemma OtherKeyChangesNothing(log: seq<Outcome>, o: Outcome, key: string)
    requires o.key != key
    ensures forall lo, hi :: AdmittedIn(log + [o], key, lo, hi) == AdmittedIn(log, key, lo, hi)
  {
    assert Init(log + [o]) == log;
  }

  /** A window was opened no later than the present. */
  lemma {:induction false} WindowOpenedBefore(windowMs: int, hits: seq<Hit>, key: string, now: int)
    requires Nondecreasing(hits) && key in Run(windowMs, hits, false)
    requires hits != [] ==> Last(hits).at <= now
    ensures Run(windowMs, hits, false)[key].resetAt - windowMs <= now
  {
    if hits != [] && (key != Last(hits).key || Open(Run(windowMs, Init(hits), false), key, Last(hits).at)) {
      WindowOpenedBefore(windowMs, Init(hits), key, Last(hits).at);
    }
  }

  /**
   Whatever the traffic, a closed interval [lo, lo + windowMs] holds at most
   2 * cap admitted hits on one key, sweeping included.
   */
  lemma {:induction false} AtMostTwiceTheLimit(windowMs: int, hits: seq<Hit>, key: string, cap: nat, lo: int)
    requires windowMs > 0 && Nondecreasing(hits)
    ensures AdmittedIn(Log(windowMs, hits, cap, true), key, lo, lo + windowMs + 1) <= 2 * cap
  {
    LogsAgree(windowMs, hits, cap);
    if hits != [] {
      AtMostTwiceTheLimit(windowMs, Init(hits), key, cap, lo);
      LogsAgree(windowMs, Init(hits), cap);
      var log := Log(windowMs, hits, cap, false);
      var o := Last(log);
      assert Init(log) == Log(windowMs, Init(hits), cap, false);
      if Counts(o, key, lo, lo + windowMs + 1) {
        EveryWindowAccounts(windowMs, hits, key, cap);
        WindowOpenedBefore(windowMs, hits, key, o.at);
        EntryBoundsTheInterval(log, Run(windowMs, hits, false)[key], windowMs, key, cap, lo);
      }
    }
  }

  /** An interval that reaches into the current window meets only it and the one before. */
  lemma EntryBoundsTheInterval(log: seq<Outcome>, e: Entry, windowMs: int, key: string, cap: nat, lo: int)
    requires windowMs > 0 && EntryAccounts(log, e, windowMs, key, cap)
    requires e.resetAt - 2 * windowMs <= lo
    ensures AdmittedIn(log, key, lo, lo + windowMs + 1) <= 2 * cap
  {
    var start, hi := e.resetAt - windowMs, e.resetAt + AtLeastZero(lo + windowMs + 1 - e.resetAt);
    AdmittedInMonotone(log, key, lo, lo + windowMs + 1, start - windowMs, hi);
    AdmittedInSplits(log, key, start - windowMs, start, hi);
    AdmittedInSplits(log, key, start, e.resetAt, hi);
    AdmittedInNothing(log, key, e.resetAt, hi);
  }

  // ---- The allowance of a half-open interval ----

  /** The hit that opened a window was admitted, and fewer than cap were in the windowMs before it less its first instant. */
  ghost predicate OpeningAccounts(log: seq<Outcome>, e: Entry, windowMs: int, key: string, cap: nat) {
    var start := e.resetAt - windowMs;
    && AdmittedIn(log, key, start, start + 1) >= 1
    && AdmittedIn(log, key, start - windowMs + 1, start) <= cap - 1
  }

  lemma OpeningStays(log: seq<Outcome>, o: Outcome, e: Entry, windowMs: int, key: string, cap: nat)
    requires windowMs > 0 && OpeningAccounts(log, e, windowMs, key, cap) && (o.key == key ==> e.resetAt - windowMs <= o.at)
    ensures OpeningAccounts(log + [o], Entry(e.count + 1, e.resetAt), windowMs, key, cap)
    ensures OpeningAccounts(log + [o], e, windowMs, key, cap)
  {
    assert Init(log + [o]) == log;
  }

  /** A window all of whose admissions are within cap, the opening one among them. */
  lemma LessTheOpening(log: seq<Outcome>, e: Entry, windowMs: int, key: string, cap: nat)
    requires windowMs > 0 && EntryAccounts(log, e, windowMs, key, cap) && OpeningAccounts(log, e, windowMs, key, cap)
    ensures AdmittedIn(log, key, e.resetAt - windowMs + 1, e.resetAt) <= cap - 1
  {
    AdmittedInSplits(log, key, e.resetAt - windowMs, e.resetAt - windowMs + 1, e.resetAt);
  }

  lemma NewOpening(log: seq<Outcome>, w: Windows, windowMs: int, key: string, cap: nat, at: int)
    requires windowMs > 0 && cap >= 1 && WindowAccounts(log, w, windowMs, key, cap) && !Open(w, key, at)
    requires key in w ==> OpeningAccounts(log, w[key], windowMs, key, cap)
    ensures OpeningAccounts(log + [Outcome(key, at, 1 <= cap)], Entry(1, at + windowMs), windowMs, key, cap)
  {
    var log' := log + [Outcome(key, at, 1 <= cap)];
    assert Init(log') == log && Last(log') == Outcome(key, at, true);
    if key in w {
      var e := w[key];
      LessTheOpening(log, e, windowMs, key, cap);
      AdmittedInSplits(log, key, e.resetAt - windowMs + 1, e.resetAt, at);
      AdmittedInNothing(log, key, e.resetAt, at);
      AdmittedInMonotone(log, key, at - windowMs + 1, at, e.resetAt - windowMs + 1, at);
    } else {
      AdmittedInNothing(log, key, at - windowMs + 1, at);
    }
  }

  lemma HitKeepsOpening(log: seq<Outcome>, w: Windows, windowMs: int, h: Hit, key: string, cap: nat)
    requires windowMs > 0 && cap >= 1 && WindowAccounts(log, w, windowMs, key, cap)
    requires key in w ==> w[key].resetAt - windowMs <= h.at && OpeningAccounts(log, w[key], windowMs, key, cap)
    ensures var w' := After(w, windowMs, h, false);
            key in w' ==> OpeningAccounts(log + [Outcome(h.key, h.at, Counted(w, windowMs, h.key, h.at).count <= cap)],
                                          w'[key], windowMs, key, cap)
  {
    var o := Outcome(h.key, h.at, Counted(w, windowMs, h.key, h.at).count <= cap);
    if h.key == key && !Open(w, key, h.at) {
      NewOpening(log, w, windowMs, key, cap, h.at);
    } else if key in w {
      OpeningStays(log, o, w[key], windowMs, key, cap);
    }
  }

  lemma {:induction false} EveryOpeningAccounts(windowMs: int, hits: seq<Hit>, key: string, cap: nat)
    requires windowMs > 0 && cap >= 1 && Nondecreasing(hits)
    ensures var w := Run(windowMs, hits, false);
            key in w ==> OpeningAccounts(Log(windowMs, hits, cap, false), w[key], windowMs, key, cap)
  {
    if hits != [] {
      var w := Run(windowMs, Init(hits), false);
      EveryOpeningAccounts(windowMs, Init(hits), key, cap);
      EveryWindowAccounts(windowMs, Init(hits), key, cap);
      if key in w {
        WindowOpenedBefore(windowMs, Init(hits), key, Last(hits).at);
      }
      HitKeepsOpening(Log(windowMs, Init(hits), cap, false), w, windowMs, Last(hits), key, cap);
    }
  }

  /** The most a limiter admits on a key in a half-open interval of its window length. */
  function Most(cap: nat): nat {
    if cap == 0 then 0 else 2 * cap - 1
  }

  lemma OpeningBoundsTheInterval(log: seq<Outcome>, e: Entry, windowMs: int, key: string, cap: nat, lo: int)
    requires windowMs > 0 && EntryAccounts(log, e, windowMs, key, cap) && OpeningAccounts(log, e, windowMs, key, cap)
    requires e.resetAt - windowMs < lo + windowMs
    ensures AdmittedIn(log, key, lo, lo + windowMs) <= 2 * cap - 1
  {
    var start, hi := e.resetAt - windowMs, e.resetAt + AtLeastZero(lo + windowMs - e.resetAt);
    AdmittedInMonotone(log, key, lo, lo + windowMs, start - windowMs + 1, hi);
    AdmittedInSplits(log, key, start - windowMs + 1, start, hi);
    AdmittedInSplits(log, key, start, e.resetAt, hi);
    AdmittedInNothing(log, key, e.resetAt, hi);
  }

  lemma {:induction false} NothingUnderZero(windowMs: int, hits: seq<Hit>, key: string, lo: int, hi: int)
    requires windowMs > 0 && Nondecreasing(hits)
    ensures AdmittedIn(Log(windowMs, hits, 0, false), key, lo, hi) == 0
  {
    if hits != [] {
      NothingUnderZero(windowMs, Init(hits), key, lo, hi);
      EveryWindowAccounts(windowMs, hits, Last(hits).key, 0);
      var log := Log(windowMs, hits, 0, false);
      assert Init(log) == Log(windowMs, Init(hits), 0, false);
    }
  }

  lemma LastHitBoundsTheInterval(windowMs: int, hits: seq<Hit>, log: seq<Outcome>, key: string, cap: nat, lo: int)
    requires windowMs > 0 && cap >= 1 && Nondecreasing(hits) && hits != [] && log == Log(windowMs, hits, cap, false)
    requires Counts(Last(log), key, lo, lo + windowMs)
    ensures AdmittedIn(log, key, lo, lo + windowMs) <= Most(cap)
  {
    EveryWindowAccounts(windowMs, hits, key, cap);
    EveryOpeningAccounts(windowMs, hits, key, cap);
    WindowOpenedBefore(windowMs, hits, key, Last(log).at);
    OpeningBoundsTheInterval(log, Run(windowMs, hits, false)[key], windowMs, key, cap, lo);
  }

  lemma {:induction false} UnsweptTwiceLessOne(windowMs: int, hits: seq<Hit>, key: string, cap: nat, lo: int)
    requires windowMs > 0 && cap >= 1 && Nondecreasing(hits)
    ensures AdmittedIn(Log(windowMs, hits, cap, false), key, lo, lo + windowMs) <= Most(cap)
  {
    if hits != [] {
      UnsweptTwiceLessOne(windowMs, Init(hits), key, cap, lo);
      var log := Log(windowMs, hits, cap, false);
      assert Init(log) == Log(windowMs, Init(hits), cap, false);
      if Counts(Last(log), key, lo, lo + windowMs) {
        LastHitBoundsTheInterval(windowMs, hits, log, key, cap, lo);
      }
    }
  }

  /**
   A half-open interval [lo, lo + windowMs) holds one admitted hit less than two
   limits: the hit that opened the earlier window is not in it.
   */
  lemma AtMostTwiceLessOne(windowMs: int, hits: seq<Hit>, key: string, cap: nat, lo: int)
    requires windowMs > 0 && Nondecreasing(hits)
    ensures AdmittedIn(Log(windowMs, hits, cap, true), key, lo, lo + windowMs) <= Most(cap)
  {
    LogsAgree(windowMs, hits, cap);
    if cap == 0 {
      NothingUnderZero(windowMs, hits, key, lo, lo + windowMs);
    } else {
      UnsweptTwiceLessOne(windowMs, hits, key, cap, lo);
    }
  }

  // ---- Runs that reach the bounds ----

  /** n hits on one key at one time. */
  function Burst(key: string, at: int, n: nat): (hits: seq<Hit>)
    ensures |hits| == n && forall i :: 0 <= i < n ==> hits[i] == Hit(key, at)
  {
    seq(n, _ => Hit(key, at))
  }

  /** A run and a burst after it are a run with one hit less in the burst, and that hit. */
  lemma BurstSnoc(hits: seq<Hit>, key: string, at: int, n: nat)
    requires n > 0
    ensures hits + Burst(key, at, n) == (hits + Burst(key, at, n - 1)) + [Hit(key, at)]
  {}

  function CountAt(w: Windows, key: string, at: int): nat {
    if Open(w, key, at) then w[key].count else 0
  }

  function ResetAt(w: Windows, windowMs: int, key: string, at: int): int {
    if Open(w, key, at) then w[key].resetAt else at + windowMs
  }

  lemma OneMoreCounted(windowMs: int, hits: seq<Hit>, all: seq<Hit>, w: Windows, key: string, at: int)
    requires windowMs > 0 && all == hits + [Hit(key, at)] && w == Run(windowMs, hits, false)
    ensures Holds(Run(windowMs, all, false), key, Entry(CountAt(w, key, at) + 1, ResetAt(w, windowMs, key, at)))
  {
    assert Init(all) == hits && Last(all) == Hit(key, at);
  }

  lemma OneMoreAdmitted(windowMs: int, hits: seq<Hit>, all: seq<Hit>, w: Windows, key: string, at: int, cap: nat, lo: int, hi: int)
    requires windowMs > 0 && all == hits + [Hit(key, at)] && w == Run(windowMs, hits, false) && CountAt(w, key, at) < cap
    ensures AdmittedIn(Log(windowMs, all, cap, false), key, lo, hi)
         == AdmittedIn(Log(windowMs, hits, cap, false), key, lo, hi) + if lo <= at < hi then 1 else 0
  {
    OneMoreCounted(windowMs, hits, all, w, key, at);
    LogOfOneMore(windowMs, hits, Hit(key, at), cap, false, key, lo, hi);
  }

  lemma InBurst(windowMs: int, w: Windows, w': Windows, key: string, at: int, n: nat)
    requires windowMs > 0 && (n == 0 ==> w' == w)
    requires n > 0 ==> Holds(w', key, Entry(CountAt(w, key, at) + n, ResetAt(w, windowMs, key, at)))
    ensures CountAt(w', key, at) == CountAt(w, key, at) + n && ResetAt(w', windowMs, key, at) == ResetAt(w, windowMs, key, at)
  {}

  predicate Holds(w: Windows, key: string, e: Entry) {
    key in w && w[key] == e
  }

  /** A burst that fits into what is left of its window leaves it that much fuller. */
  lemma {:induction false} BurstIsCounted(windowMs: int, hits: seq<Hit>, all: seq<Hit>, w: Windows, key: string, at: int, n: nat)
    requires windowMs > 0 && all == hits + Burst(key, at, n) && w == Run(windowMs, hits, false)
    ensures n == 0 ==> all == hits
    ensures n > 0 ==> Holds(Run(windowMs, all, false), key, Entry(CountAt(w, key, at) + n, ResetAt(w, windowMs, key, at)))
    decreases n
  {
    if n == 0 {
      assert all == hits;
    } else {
      var before := hits + Burst(key, at, n - 1);
      BurstSnoc(hits, key, at, n);
      BurstIsCounted(windowMs, hits, before, w, key, at, n - 1);
      var w' := Run(windowMs, before, false);
      InBurst(windowMs, w, w', key, at, n - 1);
      OneMoreCounted(windowMs, before, all, w', key, at);
    }
  }

  /** And is admitted whole. */
  lemma {:induction false} BurstIsAdmitted(windowMs: int, hits: seq<Hit>, all: seq<Hit>, w: Windows, key: string, at: int, n: nat, cap: nat,
                                           lo: int, hi: int)
    requires windowMs > 0 && all == hits + Burst(key, at, n) && w == Run(windowMs, hits, false) && CountAt(w, key, at) + n <= cap
    ensures AdmittedIn(Log(windowMs, all, cap, false), key, lo, hi)
         == AdmittedIn(Log(windowMs, hits, cap, false), key, lo, hi) + if lo <= at < hi then n else 0
    decreases n
  {
    if n == 0 {
      assert all == hits;
    } else {
      var before := hits + Burst(key, at, n - 1);
      BurstSnoc(hits, key, at, n);
      BurstIsAdmitted(windowMs, hits, before, w, key, at, n - 1, cap, lo, hi);
      BurstIsCounted(windowMs, hits, before, w, key, at, n - 1);
      var w' := Run(windowMs, before, false);
      InBurst(windowMs, w, w', key, at, n - 1);
      OneMoreAdmitted(windowMs, before, all, w', key, at, cap, lo, hi);
    }
  }

  lemma BurstsAscend(key: string, at: int, later: int, n: nat)
    requires at <= later
    ensures Nondecreasing(Burst(key, at, n) + Burst(key, later, n))
  {
    var hits := Burst(key, at, n) + Burst(key, later, n);
    assert forall i :: 0 <= i < |hits| ==> hits[i].at == if i < n then at else later;
  }

  lemma FirstBurst(windowMs: int, key: string, at: int, cap: nat, hi: int, first: seq<Hit>)
    requires windowMs > 0 && cap > 0 && at < hi && first == Burst(key, at, cap)
    ensures AdmittedIn(Log(windowMs, first, cap, false), key, at, hi) == cap
    ensures !Open(Run(windowMs, first, false), key, at + windowMs)
  {
    var none: seq<Hit> := [];
    assert none + first == first && Run(windowMs, none, false) == map[];
    assert AdmittedIn(Log(windowMs, none, cap, false), key, at, hi) == 0;
    BurstIsCounted(windowMs, none, first, map[], key, at, cap);
    BurstIsAdmitted(windowMs, none, first, map[], key, at, cap, cap, at, hi);
  }

  lemma SecondBurst(windowMs: int, key: string, at: int, cap: nat, first: seq<Hit>, both: seq<Hit>, hi: int)
    requires windowMs > 0 && !Open(Run(windowMs, first, false), key, at + windowMs) && at + windowMs < hi
    requires both == first + Burst(key, at + windowMs, cap)
    ensures AdmittedIn(Log(windowMs, both, cap, false), key, at, hi) == AdmittedIn(Log(windowMs, first, cap, false), key, at, hi) + cap
  {
    BurstIsAdmitted(windowMs, first, both, Run(windowMs, first, false), key, at + windowMs, cap, cap, at, hi);
  }

  lemma TwoBursts(windowMs: int, key: string, at: int, cap: nat, first: seq<Hit>, both: seq<Hit>, hi: int)
    requires windowMs > 0 && cap > 0 && hi == at + windowMs + 1
    requires first == Burst(key, at, cap) && both == first + Burst(key, at + windowMs, cap)
    ensures AdmittedIn(Log(windowMs, both, cap, false), key, at, hi) == 2 * cap
  {
    FirstBurst(windowMs, key, at, cap, hi, first);
    SecondBurst(windowMs, key, at, cap, first, both, hi);
  }

  /** The factor two is real, for every limit and every window: a closed interval that holds 2 * cap admitted hits. */
  lemma TwiceTheLimitIsReached(windowMs: int, key: string, at: int, cap: nat) returns (hits: seq<Hit>)
    requires windowMs > 0
    ensures Nondecreasing(hits) && AdmittedIn(Log(windowMs, hits, cap, true), key, at, at + windowMs + 1) == 2 * cap
  {
    var first, hi := Burst(key, at, cap), at + windowMs + 1;
    hits := first + Burst(key, at + windowMs, cap);
    BurstsAscend(key, at, at + windowMs, cap);
    if cap > 0 {
      TwoBursts(windowMs, key, at, cap, first, hits, hi);
    } else {
      assert hits == [];
    }
    LogsAgree(windowMs, hits, cap);
  }

  /** One hit opens a window, the rest of its limit comes at its end, and a limit's worth right after. */
  function ThreeBursts(windowMs: int, key: string, at: int, cap: nat): seq<Hit>
    requires cap >= 1
  {
    Burst(key, at, 1) + Burst(key, at + windowMs - 1, cap - 1) + Burst(key, at + windowMs, cap)
  }

  lemma OpeningBurst(windowMs: int, key: string, at: int, cap: nat, hits: seq<Hit>)
    requires windowMs > 0 && cap >= 1 && hits == Burst(key, at, 1)
    ensures AdmittedIn(Log(windowMs, hits, cap, false), key, at + 1, at + 1 + windowMs) == 0
    ensures Holds(Run(windowMs, hits, false), key, Entry(1, at + windowMs))
  {
    var none: seq<Hit> := [];
    assert none + hits == hits && Run(windowMs, none, false) == map[];
    BurstIsCounted(windowMs, none, hits, map[], key, at, 1);
    BurstIsAdmitted(windowMs, none, hits, map[], key, at, 1, cap, at + 1, at + 1 + windowMs);
  }

  lemma FillingBurst(windowMs: int, key: string, at: int, cap: nat, hits: seq<Hit>, more: seq<Hit>, w: Windows)
    requires windowMs > 1 && cap >= 1 && more == hits + Burst(key, at + windowMs - 1, cap - 1)
    requires w == Run(windowMs, hits, false) && Holds(w, key, Entry(1, at + windowMs))
    ensures AdmittedIn(Log(windowMs, more, cap, false), key, at + 1, at + 1 + windowMs)
         == AdmittedIn(Log(windowMs, hits, cap, false), key, at + 1, at + 1 + windowMs) + (cap - 1)
    ensures Holds(Run(windowMs, more, false), key, Entry(cap, at + windowMs))
  {
    BurstIsCounted(windowMs, hits, more, w, key, at + windowMs - 1, cap - 1);
    BurstIsAdmitted(windowMs, hits, more, w, key, at + windowMs - 1, cap - 1, cap, at + 1, at + 1 + windowMs);
  }

  lemma LastBurst(windowMs: int, key: string, at: int, cap: nat, hits: seq<Hit>, more: seq<Hit>, w: Windows)
    requires windowMs > 0 && more == hits + Burst(key, at + windowMs, cap)
    requires w == Run(windowMs, hits, false) && Holds(w, key, Entry(cap, at + windowMs))
    ensures AdmittedIn(Log(windowMs, more, cap, false), key, at + 1, at + 1 + windowMs)
         == AdmittedIn(Log(windowMs, hits, cap, false), key, at + 1, at + 1 + windowMs) + cap
  {
    BurstIsAdmitted(windowMs, hits, more, w, key, at + windowMs, cap, cap, at + 1, at + 1 + windowMs);
  }

  lemma ThreeBurstsAscend(windowMs: int, key: string, at: int, cap: nat)
    requires windowMs > 0 && cap >= 1
    ensures Nondecreasing(ThreeBursts(windowMs, key, at, cap))
  {
    var hits := ThreeBursts(windowMs, key, at, cap);
    assert forall i :: 0 <= i < |hits| ==>
             hits[i].at == if i == 0 then at else if i < cap then at + windowMs - 1 else at + windowMs;
  }

  /** The bound on a half-open interval is reached, for every limit of at least one and every window of more than an instant. */
  lemma MostIsReached(windowMs: int, key: string, at: int, cap: nat)
    requires windowMs > 1 && cap >= 1
    ensures Nondecreasing(ThreeBursts(windowMs, key, at, cap))
    ensures AdmittedIn(Log(windowMs, ThreeBursts(windowMs, key, at, cap), cap, true), key, at + 1, at + 1 + windowMs) == Most(cap)
  {
    var hits := ThreeBursts(windowMs, key, at, cap);
    ThreeBurstsAscend(windowMs, key, at, cap);
    LogsAgree(windowMs, hits, cap);
    var first := Burst(key, at, 1);
    OpeningBurst(windowMs, key, at, cap, first);
    var second := first + Burst(key, at + windowMs - 1, cap - 1);
    FillingBurst(windowMs, key, at, cap, first, second, Run(windowMs, first, false));
    LastBurst(windowMs, key, at, cap, second, hits, Run(windowMs, second, false));
  }
}
