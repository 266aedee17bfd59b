/**
 The shared sliding-window counter of app/src/redis.js: a sorted set per key,
 trimmed by score, extended, counted and given a fresh expiry in one atomic
 MULTI. Members are the printed pair of the time and a random nonce; they are
 kept here as the pair.
 */
module SlidingWindow {
  import opened Common
  import opened RateCounting

  datatype Member = Member(score: int, nonce: string)
  datatype Bucket = Bucket(members: set<Member>, expireAt: int)
  type Db = map<string, Bucket>

  /** answered is false when the transaction ran and its reply was lost on the way back. */
  datatype Hit = Hit(key: string, at: int, nonce: string, answered: bool)

  /** zRemRangeByScore(key, 0, upTo). */
  function Trimmed(ms: set<Member>, upTo: int): set<Member> {
    set m | m in ms && !(0 <= m.score <= upTo)
  }

  /** What the key holds at a time; an expired key holds nothing. */
  function Held(db: Db, key: string, now: int, expiring: bool): set<Member> {
    if key !in db || (expiring && db[key].expireAt <= now) then {} else db[key].members
  }

  function After(db: Db, windowMs: int, h: Hit, expiring: bool): Db {
    db[h.key := Bucket(Trimmed(Held(db, h.key, h.at, expiring), h.at - windowMs) + {Member(h.at, h.nonce)},
                       h.at + windowMs)]
  }

  class SharedCounter {
    var db: Db
    var healthy: bool

    constructor ()
      ensures db == map[] && !healthy
    {
      db, healthy := map[], false;
    }

    /** None when Redis is down or the reply was lost; the caller then falls back. */
    method SlidingWindow(key: string, windowMs: int, now: int, nonce: string, answered: bool)
      returns (count: Option<nat>)
      modifies this
      ensures healthy == old(healthy)
      ensures !healthy ==> db == old(db) && count == None
      ensures healthy ==> db == After(old(db), windowMs, Hit(key, now, nonce, answered), true)
      ensures healthy ==> count == if answered then Some(|db[key].members|) else None
    {
      if !healthy {
        return None;
      }
      if key in db && db[key].expireAt <= now {
        db := db - {key};
      }
      var members := if key in db then db[key].members else {};
      members := Trimmed(members, now - windowMs);
      members := members + {Member(now, nonce)};
      var card := |members|;
      db := db[key := Bucket(members, now + windowMs)];
      count := if answered then Some(card) else None;
    }
  }

  // ---- Whole runs ----

  /** A nondecreasing clock that never reads before the epoch. */
  ghost predicate Clocked(hits: seq<Hit>) {
    && (forall i :: 0 <= i < |hits| ==> 0 <= hits[i].at)
    && (forall i, j :: 0 <= i < j < |hits| ==> hits[i].at <= hits[j].at)
  }

  function Run(windowMs: int, hits: seq<Hit>, expiring: bool): Db {
    if hits == [] then map[] else After(Run(windowMs, Init(hits), expiring), windowMs, Last(hits), expiring)
  }

  /** The count the last hit of the run is told. */
  function CountOf(windowMs: int, hits: seq<Hit>, expiring: bool): nat
    requires hits != []
  {
    |Run(windowMs, hits, expiring)[Last(hits).key].members|
  }

  /** The members the hits on key at or after a time would make. */
  function MembersSince(hits: seq<Hit>, key: string, since: int): set<Member> {
    if hits == [] then {}
    else
      var h := Last(hits);
      MembersSince(Init(hits), key, since) + if h.key == key && since <= h.at then {Member(h.at, h.nonce)} else {}
  }

  function HitsSince(hits: seq<Hit>, key: string, since: int): nat {
    if hits == [] then 0
    else HitsSince(Init(hits), key, since) + if Last(hits).key == key && since <= Last(hits).at then 1 else 0
  }

  /** Some hit on the key made this member. */
  ghost predicate MadeBy(hits: seq<Hit>, key: string, m: Member) {
    exists i :: 0 <= i < |hits| && hits[i].key == key && Member(hits[i].at, hits[i].nonce) == m
  }

  lemma MadeBySplit(hits: seq<Hit>, key: string, m: Member)
    requires hits != []
    ensures MadeBy(hits, key, m) <==>
            MadeBy(Init(hits), key, m) || (Last(hits).key == key && Member(Last(hits).at, Last(hits).nonce) == m)
  {
    assert forall i :: 0 <= i < |hits| - 1 ==> Init(hits)[i] == hits[i];
    assert Last(hits) == hits[|hits| - 1];
  }

  lemma {:induction false} MembersAreHits(hits: seq<Hit>, key: string, since: int, m: Member)
    ensures m in MembersSince(hits, key, since) <==> since <= m.score && MadeBy(hits, key, m)
  {
    if hits != [] {
      MembersAreHits(Init(hits), key, since, m);
      MadeBySplit(hits, key, m);
    }
  }

  lemma MembersTrim(hits: seq<Hit>, key: string, since: int, later: int)
    requires since <= later && forall i :: 0 <= i < |hits| ==> 0 <= hits[i].at
    ensures Trimmed(MembersSince(hits, key, since), later - 1) == MembersSince(hits, key, later)
  {
    forall m ensures m in Trimmed(MembersSince(hits, key, since), later - 1) <==> m in MembersSince(hits, key, later) {
      MembersAreHits(hits, key, since, m);
      MembersAreHits(hits, key, later, m);
    }
  }

  lemma MembersAllOld(hits: seq<Hit>, key: string, since: int)
    requires forall i :: 0 <= i < |hits| && hits[i].key == key ==> hits[i].at < since
    ensures MembersSince(hits, key, since) == {}
  {
    forall m ensures m !in MembersSince(hits, key, since) {
      MembersAreHits(hits, key, since, m);
    }
  }

  ghost predicate NoneAfter(hits: seq<Hit>, key: string, last: int) {
    forall i :: 0 <= i < |hits| && hits[i].key == key ==> hits[i].at <= last
  }

  ghost predicate NoneOf(hits: seq<Hit>, key: string) {
    forall i :: 0 <= i < |hits| ==> hits[i].key != key
  }

  lemma SnocAfter(hits: seq<Hit>, h: Hit, key: string, last: int)
    ensures NoneAfter(hits + [h], key, last) <==> NoneAfter(hits, key, last) && (h.key == key ==> h.at <= last)
    ensures NoneOf(hits + [h], key) <==> NoneOf(hits, key) && h.key != key
  {
    var hits' := hits + [h];
    assert forall i :: 0 <= i < |hits| ==> hits'[i] == hits[i];
    assert hits'[|hits|] == h;
  }

  /** A bucket holds exactly the members of its key's hits inside the window ending at its last hit. */
  ghost predicate BucketHolds(hits: seq<Hit>, db: Db, windowMs: int, key: string) {
    if key in db then
      var last := db[key].expireAt - windowMs;
      && db[key].members == MembersSince(hits, key, last - windowMs + 1)
      && NoneAfter(hits, key, last)
    else NoneOf(hits, key)
  }

  lemma OtherHitKeepsBucket(hits: seq<Hit>, db: Db, db': Db, windowMs: int, h: Hit, key: string)
    requires h.key != key && BucketHolds(hits, db, windowMs, key)
    requires key in db' <==> key in db
    requires key in db ==> db'[key] == db[key]
    ensures BucketHolds(hits + [h], db', windowMs, key)
  {
    assert Init(hits + [h]) == hits && Last(hits + [h]) == h;
    SnocAfter(hits, h, key, if key in db then db[key].expireAt - windowMs else 0);
  }

  lemma NewBucketMembers(hits: seq<Hit>, windowMs: int, h: Hit)
    requires NoneOf(hits, h.key)
    ensures MembersSince(hits, h.key, h.at - windowMs + 1) == {} && NoneAfter(hits, h.key, h.at)
  {
    MembersAllOld(hits, h.key, h.at - windowMs + 1);
  }

  lemma OldBucketMembers(hits: seq<Hit>, b: Bucket, windowMs: int, h: Hit)
    requires NoneAfter(hits, h.key, b.expireAt - windowMs) && b.expireAt - windowMs <= h.at
    requires b.members == MembersSince(hits, h.key, b.expireAt - windowMs - windowMs + 1)
    requires forall i :: 0 <= i < |hits| ==> 0 <= hits[i].at
    ensures Trimmed(b.members, h.at - windowMs) == MembersSince(hits, h.key, h.at - windowMs + 1)
    ensures b.expireAt <= h.at ==> MembersSince(hits, h.key, h.at - windowMs + 1) == {}
    ensures NoneAfter(hits, h.key, h.at)
  {
    MembersTrim(hits, h.key, b.expireAt - windowMs - windowMs + 1, h.at - windowMs + 1);
    if b.expireAt <= h.at {
      MembersAllOld(hits, h.key, h.at - windowMs + 1);
    }
  }

  lemma HitKeepsBucket(hits: seq<Hit>, db: Db, windowMs: int, h: Hit, key: string, expiring: bool)
    requires windowMs > 0 && Clocked(hits + [h]) && BucketHolds(hits, db, windowMs, key)
    requires key in db ==> db[key].expireAt - windowMs <= h.at
    ensures BucketHolds(hits + [h], After(db, windowMs, h, expiring), windowMs, key)
  {
    if h.key != key {
      OtherHitKeepsBucket(hits, db, After(db, windowMs, h, expiring), windowMs, h, key);
    } else {
      assert Init(hits + [h]) == hits && Last(hits + [h]) == h;
      assert forall i :: 0 <= i < |hits| ==> (hits + [h])[i] == hits[i];
      SnocAfter(hits, h, key, h.at);
      if key in db {
        OldBucketMembers(hits, db[key], windowMs, h);
      } else {
        NewBucketMembers(hits, windowMs, h);
      }
    }
  }

  lemma {:induction false} LastHitOfBucket(windowMs: int, hits: seq<Hit>, key: string, expiring: bool, now: int)
    requires Clocked(hits) && key in Run(windowMs, hits, expiring)
    requires hits != [] ==> Last(hits).at <= now
    ensures Run(windowMs, hits, expiring)[key].expireAt - windowMs <= now
  {
    if hits != [] && key != Last(hits).key {
      LastHitOfBucket(windowMs, Init(hits), key, expiring, Last(hits).at);
    }
  }

  lemma {:induction false} EveryBucketHolds(windowMs: int, hits: seq<Hit>, key: string, expiring: bool)
    requires windowMs > 0 && Clocked(hits)
    ensures BucketHolds(hits, Run(windowMs, hits, expiring), windowMs, key)
  {
    if hits != [] {
      assert hits == Init(hits) + [Last(hits)];
      EveryBucketHolds(windowMs, Init(hits), key, expiring);
      if key in Run(windowMs, Init(hits), expiring) {
        LastHitOfBucket(windowMs, Init(hits), key, expiring, Last(hits).at);
      }
      HitKeepsBucket(Init(hits), Run(windowMs, Init(hits), expiring), windowMs, Last(hits), key, expiring);
    }
  }

  lemma CountIsMembers(windowMs: int, hits: seq<Hit>, expiring: bool)
    requires windowMs > 0 && Clocked(hits) && hits != []
    ensures CountOf(windowMs, hits, expiring)
         == |MembersSince(hits, Last(hits).key, Last(hits).at - windowMs + 1)|
  {
    EveryBucketHolds(windowMs, hits, Last(hits).key, expiring);
  }

  /** Forgetting is invisible: with or without pExpire, every hit is told the same count. */
  lemma ExpiryIsInvisible(windowMs: int, hits: seq<Hit>)
    requires windowMs > 0 && Clocked(hits) && hits != []
    ensures CountOf(windowMs, hits, true) == CountOf(windowMs, hits, false)
  {
    CountIsMembers(windowMs, hits, true);
    CountIsMembers(windowMs, hits, false);
  }

  // ---- Exactness of the count ----

  predicate Collide(a: Hit, b: Hit, key: string, since: int) {
    a.key == b.key == key && since <= a.at && Member(a.at, a.nonce) == Member(b.at, b.nonce)
  }

  /** No two hits on the key at or after a time print to the same member. */
  ghost predicate DistinctSince(hits: seq<Hit>, key: string, since: int) {
    forall i, j :: 0 <= i < j < |hits| ==> !Collide(hits[i], hits[j], key, since)
  }

  lemma {:induction false} MembersCountHits(hits: seq<Hit>, key: string, since: int)
    ensures |MembersSince(hits, key, since)| <= HitsSince(hits, key, since)
    ensures |MembersSince(hits, key, since)| == HitsSince(hits, key, since) <==> DistinctSince(hits, key, since)
  {
    if hits != [] {
      var init, h := Init(hits), Last(hits);
      MembersCountHits(init, key, since);
      MembersAreHits(init, key, since, Member(h.at, h.nonce));
      assert forall i :: 0 <= i < |init| ==> hits[i] == init[i];
      assert DistinctSince(hits, key, since) ==> DistinctSince(init, key, since);
    }
  }

  /**
   The count is exact — every hit on the key in the window (at - windowMs, at],
   admitted or not — if and only if no two of them drew the same nonce in the
   same millisecond.
   */
  lemma CountIsExactIffNoncesDiffer(windowMs: int, hits: seq<Hit>)
    requires windowMs > 0 && Clocked(hits) && hits != []
    ensures CountOf(windowMs, hits, true) == HitsSince(hits, Last(hits).key, Last(hits).at - windowMs + 1)
       <==> DistinctSince(hits, Last(hits).key, Last(hits).at - windowMs + 1)
  {
    CountIsMembers(windowMs, hits, true);
    MembersCountHits(hits, Last(hits).key, Last(hits).at - windowMs + 1);
  }

  // ---- The allowance ----

  function Log(windowMs: int, hits: seq<Hit>, cap: int): (log: seq<Outcome>)
    ensures |log| == |hits|
    ensures forall i :: 0 <= i < |hits| ==> log[i].key == hits[i].key && log[i].at == hits[i].at
  {
    if hits == [] then []
    else
      var h := Last(hits);
      Log(windowMs, Init(hits), cap) + [Outcome(h.key, h.at, h.answered && CountOf(windowMs, hits, true) <= cap)]
  }

  lemma LogOfOneMore(windowMs: int, hits: seq<Hit>, h: Hit, cap: int, key: string, lo: int, hi: int)
    ensures h.key in Run(windowMs, hits + [h], true)
    ensures AdmittedIn(Log(windowMs, hits + [h], cap), key, lo, hi)
         == AdmittedIn(Log(windowMs, hits, cap), key, lo, hi)
          + if h.answered && h.key == key && lo <= h.at < hi && |Run(windowMs, hits + [h], true)[h.key].members| <= cap
            then 1 else 0
  {
    assert Init(hits + [h]) == hits;
    assert Init(Log(windowMs, hits + [h], cap)) == Log(windowMs, hits, cap);
  }

  lemma {:induction false} AdmittedAreHits(windowMs: int, hits: seq<Hit>, cap: int, key: string, lo: int, hi: int)
    ensures AdmittedIn(Log(windowMs, hits, cap), key, lo, hi) <= HitsSince(hits, key, lo)
  {
    if hits != [] {
      AdmittedAreHits(windowMs, Init(hits), cap, key, lo, hi);
      assert Init(Log(windowMs, hits, cap)) == Log(windowMs, Init(hits), cap);
    }
  }

  lemma DistinctInInit(hits: seq<Hit>, key: string, since: int)
    requires Clocked(hits) && hits != [] && DistinctSince(hits, key, 0)
    ensures DistinctSince(Init(hits), key, 0) && DistinctSince(hits, key, since)
  {
    assert forall i :: 0 <= i < |hits| - 1 ==> Init(hits)[i] == hits[i];
    forall i, j | 0 <= i < j < |hits| ensures !Collide(hits[i], hits[j], key, since) {
      assert !Collide(hits[i], hits[j], key, 0);
    }
  }

  /** A hit whose member an earlier hit on its key already has. */
  ghost predicate IsRepeat(before: seq<Hit>, h: Hit) {
    MadeBy(before, h.key, Member(h.at, h.nonce))
  }

  /** How many hits on a key in [lo, hi) repeat a member. */
  ghost function RepeatsIn(hits: seq<Hit>, key: string, lo: int, hi: int): nat {
    if hits == [] then 0
    else
      var h := Last(hits);
      RepeatsIn(Init(hits), key, lo, hi) + if h.key == key && lo <= h.at < hi && IsRepeat(Init(hits), h) then 1 else 0
  }

  lemma LastIsNewOrRepeats(hits: seq<Hit>, init: seq<Hit>, h: Hit, key: string, lo: int)
    requires hits != [] && init == Init(hits) && h == Last(hits)
    ensures |MembersSince(hits, key, lo)|
         == |MembersSince(init, key, lo)| + if h.key == key && lo <= h.at && !IsRepeat(init, h) then 1 else 0
  {
    var m, ms := Member(h.at, h.nonce), MembersSince(init, key, lo);
    if h.key == key && lo <= h.at {
      MembersAreHits(init, key, lo, m);
      assert m in ms ==> ms + {m} == ms;
    }
  }

  lemma {:induction false} HitsAreMembersAndRepeats(hits: seq<Hit>, key: string, lo: int, hi: int)
    requires forall i :: 0 <= i < |hits| ==> hits[i].at < hi
    ensures HitsSince(hits, key, lo) == |MembersSince(hits, key, lo)| + RepeatsIn(hits, key, lo, hi)
  {
    if hits != [] {
      var init, h := Init(hits), Last(hits);
      assert forall i :: 0 <= i < |init| ==> init[i] == hits[i];
      HitsAreMembersAndRepeats(init, key, lo, hi);
      assert h == hits[|hits| - 1];
      LastIsNewOrRepeats(hits, init, h, key, lo);
    }
  }

  lemma {:induction false} MembersSinceMonotone(hits: seq<Hit>, key: string, since: int, earlier: int)
    requires earlier <= since
    ensures MembersSince(hits, key, since) <= MembersSince(hits, key, earlier)
  {
    if hits != [] {
      MembersSinceMonotone(Init(hits), key, since, earlier);
    }
  }

  lemma FewerMembers(a: set<Member>, b: set<Member>)
    requires a <= b
    ensures |a| <= |b|
  {
    assert b == a + (b - a);
  }

  /** Where no two hits on the key draw one member, none repeats. */
  lemma {:induction false} NoRepeats(hits: seq<Hit>, key: string, lo: int, hi: int)
    requires Clocked(hits) && DistinctSince(hits, key, 0)
    ensures RepeatsIn(hits, key, lo, hi) == 0
  {
    if hits != [] {
      var init, h := Init(hits), Last(hits);
      DistinctInInit(hits, key, 0);
      assert forall i :: 0 <= i < |init| ==> init[i] == hits[i];
      NoRepeats(init, key, lo, hi);
      forall i | 0 <= i < |init| && h.key == key ensures !(init[i].key == key && Member(init[i].at, init[i].nonce) == Member(h.at, h.nonce)) {
        assert !Collide(hits[i], hits[|hits| - 1], key, 0);
        assert 0 <= hits[i].at;
      }
    }
  }

  lemma AdmittedHitBoundsTheRest(windowMs: int, hits: seq<Hit>, key: string, cap: nat, lo: int)
    requires windowMs > 0 && Clocked(hits) && hits != [] && Counts(Last(Log(windowMs, hits, cap)), key, lo, lo + windowMs)
    ensures AdmittedIn(Log(windowMs, hits, cap), key, lo, lo + windowMs) <= cap + RepeatsIn(hits, key, lo, lo + windowMs)
  {
    var since := Last(hits).at - windowMs + 1;
    assert Last(hits) == hits[|hits| - 1];
    CountIsMembers(windowMs, hits, true);
    AdmittedAreHits(windowMs, hits, cap, key, lo, lo + windowMs);
    HitsAreMembersAndRepeats(hits, key, lo, lo + windowMs);
    MembersSinceMonotone(hits, key, lo, since);
    FewerMembers(MembersSince(hits, key, lo), MembersSince(hits, key, since));
  }

  /** Whatever members are drawn, [lo, lo + windowMs) holds at most cap admitted hits and the repeats in it. */
  lemma {:induction false} AtMostTheLimitAndRepeats(windowMs: int, hits: seq<Hit>, key: string, cap: nat, lo: int)
    requires windowMs > 0 && Clocked(hits)
    ensures AdmittedIn(Log(windowMs, hits, cap), key, lo, lo + windowMs) <= cap + RepeatsIn(hits, key, lo, lo + windowMs)
  {
    if hits != [] {
      assert forall i :: 0 <= i < |hits| - 1 ==> Init(hits)[i] == hits[i];
      AtMostTheLimitAndRepeats(windowMs, Init(hits), key, cap, lo);
      var log := Log(windowMs, hits, cap);
      assert Init(log) == Log(windowMs, Init(hits), cap);
      if Counts(Last(log), key, lo, lo + windowMs) {
        AdmittedHitBoundsTheRest(windowMs, hits, key, cap, lo);
      }
    }
  }

  /** So where members are distinct, [lo, lo + windowMs) holds at most cap admitted hits on one key. */
  lemma AtMostTheLimit(windowMs: int, hits: seq<Hit>, key: string, cap: nat, lo: int)
    requires windowMs > 0 && Clocked(hits) && DistinctSince(hits, key, 0)
    ensures AdmittedIn(Log(windowMs, hits, cap), key, lo, lo + windowMs) <= cap
  {
    AtMostTheLimitAndRepeats(windowMs, hits, key, cap, lo);
    NoRepeats(hits, key, lo, lo + windowMs);
  }

  /** No more hits on a key than the limit, all answered, are all admitted. */
  lemma {:induction false} FewAreAdmitted(windowMs: int, hits: seq<Hit>, key: string, cap: nat, lo: int, hi: int)
    requires windowMs > 0 && Clocked(hits) && |hits| <= cap
    requires forall i :: 0 <= i < |hits| ==> hits[i].answered && hits[i].key == key && lo <= hits[i].at < hi
    ensures AdmittedIn(Log(windowMs, hits, cap), key, lo, hi) == |hits|
  {
    if hits != [] {
      assert forall i :: 0 <= i < |hits| - 1 ==> Init(hits)[i] == hits[i];
      FewAreAdmitted(windowMs, Init(hits), key, cap, lo, hi);
      CountIsFew(windowMs, hits);
      LastIsAdmitted(windowMs, hits, cap, key, lo, hi);
    }
  }

  lemma LastIsAdmitted(windowMs: int, hits: seq<Hit>, cap: nat, key: string, lo: int, hi: int)
    requires hits != [] && Last(hits).answered && Last(hits).key == key && lo <= Last(hits).at < hi
    requires CountOf(windowMs, hits, true) <= cap
    ensures AdmittedIn(Log(windowMs, hits, cap), key, lo, hi) == AdmittedIn(Log(windowMs, Init(hits), cap), key, lo, hi) + 1
  {
    assert Init(Log(windowMs, hits, cap)) == Log(windowMs, Init(hits), cap);
  }

  lemma CountIsFew(windowMs: int, hits: seq<Hit>)
    requires windowMs > 0 && Clocked(hits) && hits != []
    ensures CountOf(windowMs, hits, true) <= |hits|
  {
    var h := Last(hits);
    CountIsMembers(windowMs, hits, true);
    MembersCountHits(hits, h.key, h.at - windowMs + 1);
    HitsAreFew(hits, h.key, h.at - windowMs + 1);
  }

  lemma {:induction false} HitsAreFew(hits: seq<Hit>, key: string, since: int)
    ensures HitsSince(hits, key, since) <= |hits|
  {
    if hits != [] {
      HitsAreFew(Init(hits), key, since);
    }
  }

  /** A nonce drawn twice in one millisecond lets a second hit through a limit of one. */
  lemma CollidingNonceAdmitsTwice(h: Hit)
    requires h == Hit("k", 5, "a", true)
    ensures AdmittedIn(Log(60_000, [h, h], 1), "k", 5, 6) == 2
  {
    assert Init([h, h]) == [h] && Init([h]) == [];
    var m := Member(5, "a");
    assert Run(60_000, [], true) == map[];
    assert Run(60_000, [h], true)["k"] == Bucket({m}, 60_005);
    assert Trimmed({m}, 5 - 60_000) + {m} == {m};
    assert Run(60_000, [h, h], true)["k"].members == {m};
    var o := Outcome("k", 5, true);
    assert Log(60_000, [h], 1) == [o];
    assert Log(60_000, [h, h], 1) == [o] + [o] == [o, o];
    assert Init([o, o]) == [o] && Init([o]) == [];
    assert AdmittedIn([o], "k", 5, 6) == 1;
  }
}
