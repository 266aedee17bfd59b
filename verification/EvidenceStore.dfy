/**
 The evidence store of evidence/memory/memory.go behind the contract of
 evidence/evidence.go: an append-only log of deploys, each with a sub-chain of
 state changes, and a compare-and-set that may be fenced on a version.
 */
module EvidenceStore {
  import opened Common
  import opened EvidenceChain

  const PENDING: State := "pending"

  /** The fields of a record its caller writes; the store sets the rest. */
  datatype Draft = Draft(idempotencyKey: string, ref: Ref, actor: Actor, source: Source, image: Image,
                         admission: Admission, note: string, state: State)

  datatype Transition = Transition(from: seq<State>, to: State, at: Time, reason: string, observation: Observation,
                                   expectEvents: Option<int>, admission: Option<Admission>, image: Option<Image>)

  datatype Reply = Stored(record: Record) | Duplicate(record: Record) | Conflict(record: Record)
                 | KeyRequired | NotFound | Invalid

  datatype Db = Db(byId: map<ID, Record>, byKey: map<string, ID>, order: seq<ID>,
                   seqs: map<Ref, int>, heads: map<Ref, Bytes>)

  const EMPTY := Db(map[], map[], [], map[], map[])

  // ---- What the two writes do ----

  function NewRecord(h: Hasher, db: Db, d: Draft, nanos: int, now: Time): Record {
    var state := if d.state == "" then PENDING else d.state;
    var seqNo := (if d.ref in db.seqs then db.seqs[d.ref] else 0) + 1;
    var prev := if d.ref in db.heads then db.heads[d.ref] else [];
    var r := Record(d.idempotencyKey, d.ref, d.actor, d.source, d.image, d.admission, d.note,
                    ID(nanos, d.idempotencyKey), seqNo, state, state, Canonical(now), Canonical(now), [], prev, []);
    r.(hash := ChainRecord(h, prev, r))
  }

  function AppendReply(h: Hasher, db: Db, d: Draft, nanos: int, now: Time): Reply {
    if d.idempotencyKey == "" then KeyRequired
    else if d.idempotencyKey in db.byKey && db.byKey[d.idempotencyKey] in db.byId
    then Duplicate(db.byId[db.byKey[d.idempotencyKey]])
    else Stored(NewRecord(h, db, d, nanos, now))
  }

  function Extended(db: Db, r: Record): Db {
    Db(db.byId[r.id := r], db.byKey[r.idempotencyKey := r.id], db.order + [r.id],
       db.seqs[r.ref := r.seqNo], db.heads[r.ref := r.hash])
  }

  function AfterAppend(h: Hasher, db: Db, d: Draft, nanos: int, now: Time): Db {
    if AppendReply(h, db, d, nanos, now).Stored? then Extended(db, NewRecord(h, db, d, nanos, now)) else db
  }

  function NewEvent(h: Hasher, r: Record, t: Transition): Event {
    var prev := if r.transitions == [] then r.hash else Last(r.transitions).hash;
    var e := Event(r.state, t.to, Canonical(t.at), t.reason,
                   t.observation.(at := Canonical(t.observation.at)), prev, []);
    e.(hash := ChainEvent(h, prev, r.id, e))
  }

  function Moved(h: Hasher, r: Record, t: Transition, now: Time): Record {
    r.(transitions := r.transitions + [NewEvent(h, r, t)], state := t.to, updatedAt := Canonical(now),
       admission := if t.admission.Some? then t.admission.value else r.admission,
       image := if t.image.Some? then t.image.value else r.image)
  }

  /** Whether the compare-and-set accepts: the state is expected and the version is the one read. */
  predicate Accepts(r: Record, t: Transition) {
    && (t.from != [] ==> r.state in t.from)
    && (t.expectEvents.Some? ==> t.expectEvents.value == |r.transitions|)
  }

  function MoveReply(h: Hasher, db: Db, id: ID, t: Transition, now: Time): Reply {
    if t.at.ns == 0 then Invalid
    else if id !in db.byId then NotFound
    else if !Accepts(db.byId[id], t) then Conflict(db.byId[id])
    else Stored(Moved(h, db.byId[id], t, now))
  }

  function AfterMove(h: Hasher, db: Db, id: ID, t: Transition, now: Time): Db {
    var reply := MoveReply(h, db, id, t, now);
    if reply.Stored? then db.(byId := db.byId[id := reply.record]) else db
  }

  /** What a prune deletes: rows created before the cutoff that no Ref was found to be running. */
  predicate Doomed(byId: map<ID, Record>, id: ID, cutoff: int, current: set<ID>) {
    id in byId && byId[id].createdAt.ns < cutoff && id !in current
  }

  function Surviving(byId: map<ID, Record>, order: seq<ID>, cutoff: int, current: set<ID>): seq<ID> {
    if order == [] then []
    else Surviving(byId, Init(order), cutoff, current) + if Doomed(byId, Last(order), cutoff, current) then [] else [Last(order)]
  }

  function RowsLeft(byId: map<ID, Record>, order: seq<ID>, cutoff: int, current: set<ID>): map<ID, Record> {
    map id | id in byId && !(id in order && Doomed(byId, id, cutoff, current)) :: byId[id]
  }

  function KeysGone(byId: map<ID, Record>, order: seq<ID>, cutoff: int, current: set<ID>): set<string> {
    set id | id in order && Doomed(byId, id, cutoff, current) :: byId[id].idempotencyKey
  }

  /** The counters and the heads stay, so that Seq and the chain go on where they were. */
  function AfterPrune(db: Db, cutoff: int, current: set<ID>): Db {
    Db(RowsLeft(db.byId, db.order, cutoff, current), db.byKey - KeysGone(db.byId, db.order, cutoff, current),
       Surviving(db.byId, db.order, cutoff, current), db.seqs, db.heads)
  }

  lemma OneMoreExamined(byId: map<ID, Record>, order: seq<ID>, cutoff: int, current: set<ID>)
    requires order != [] && Last(order) !in Init(order) && Last(order) in byId
    ensures var id, init := Last(order), Init(order);
            && id in RowsLeft(byId, init, cutoff, current) && RowsLeft(byId, init, cutoff, current)[id] == byId[id]
            && (if Doomed(byId, id, cutoff, current) then
                  && RowsLeft(byId, order, cutoff, current) == RowsLeft(byId, init, cutoff, current) - {id}
                  && KeysGone(byId, order, cutoff, current) == KeysGone(byId, init, cutoff, current) + {byId[id].idempotencyKey}
                else
                  && RowsLeft(byId, order, cutoff, current) == RowsLeft(byId, init, cutoff, current)
                  && KeysGone(byId, order, cutoff, current) == KeysGone(byId, init, cutoff, current))
  {
    assert order == Init(order) + [Last(order)];
  }

  // ---- Pages of history ----

  /** The ids of one Ref in the order they were appended. */
  function RefIds(byId: map<ID, Record>, order: seq<ID>, ref: Ref): (ids: seq<ID>)
    requires forall i :: 0 <= i < |order| ==> order[i] in byId
    ensures forall i :: 0 <= i < |ids| ==> ids[i] in byId && byId[ids[i]].ref == ref
  {
    if order == [] then []
    else
      assert forall i :: 0 <= i < |Init(order)| ==> Init(order)[i] == order[i];
      RefIds(byId, Init(order), ref) + if byId[Last(order)].ref == ref then [Last(order)] else []
  }

  const LIMIT := 200

  function IndexIn(s: seq<ID>, x: ID): (i: nat)
    ensures i <= |s| && (i < |s| ==> s[i] == x) && forall k :: 0 <= k < i ==> s[k] != x
  {
    if s == [] || s[0] == x then 0 else 1 + IndexIn(s[1..], x)
  }

  function RowsAt(byId: map<ID, Record>, ids: seq<ID>): (rows: seq<Record>)
    requires forall i :: 0 <= i < |ids| ==> ids[i] in byId
    ensures |rows| == |ids| && forall i :: 0 <= i < |ids| ==> rows[i] == byId[ids[i]]
  {
    seq(|ids|, i requires 0 <= i < |ids| => byId[ids[i]])
  }

  function FirstFew(rows: seq<Record>): seq<Record> {
    if |rows| <= LIMIT then rows else rows[..LIMIT]
  }

  /** Where a page after a cursor begins in the order of all records; past the end when there is no such record. */
  function StartOf(order: seq<ID>, after: Option<ID>): nat {
    if after.None? then 0 else IndexIn(order, after.value) + 1
  }

  /** What a reader asks for; an empty part of the Ref, no states and no time mean any. */
  datatype Query = Query(ref: Ref, states: seq<State>, since: Option<int>, until: Option<int>,
                         newest: bool, after: Option<ID>, limit: int)
  datatype Page = Page(records: seq<Record>, next: Option<ID>)

  predicate Matches(r: Record, q: Query) {
    && (q.ref.tenantId != "" ==> r.ref.tenantId == q.ref.tenantId)
    && (q.ref.app != "" ==> r.ref.app == q.ref.app)
    && (q.ref.env != "" ==> r.ref.env == q.ref.env)
    && (q.states != [] ==> r.state in q.states)
    && (q.since.Some? ==> r.createdAt.ns >= q.since.value)
    && (q.until.Some? ==> r.createdAt.ns <= q.until.value)
  }

  function Matching(byId: map<ID, Record>, ids: seq<ID>, q: Query): (r: seq<ID>)
    requires forall i :: 0 <= i < |ids| ==> ids[i] in byId
    ensures forall i :: 0 <= i < |r| ==> r[i] in byId && Matches(byId[r[i]], q)
  {
    if ids == [] then []
    else
      assert forall i :: 0 <= i < |Init(ids)| ==> Init(ids)[i] == ids[i];
      Matching(byId, Init(ids), q) + if Matches(byId[Last(ids)], q) then [Last(ids)] else []
  }

  /** A limit that was not set, or is over 200, is 50. */
  function LimitOf(limit: int): (n: nat)
    ensures 0 < n <= LIMIT
  {
    if limit <= 0 || limit > LIMIT then 50 else limit
  }

  /** The first rows, and a cursor at the last of them when there are more. */
  function Cut(rows: seq<Record>, n: nat): Page
    requires n > 0
  {
    if |rows| <= n then Page(rows, None) else Page(rows[..n], Some(rows[n - 1].id))
  }

  function Reversed(ids: seq<ID>): (r: seq<ID>)
    ensures |r| == |ids| && forall i :: 0 <= i < |r| ==> r[i] == ids[|ids| - 1 - i]
  {
    seq(|ids|, i requires 0 <= i < |ids| => ids[|ids| - 1 - i])
  }

  /** The order a query walks in. */
  function Walk(order: seq<ID>, newest: bool): (ids: seq<ID>)
    ensures |ids| == |order|
    ensures (forall i :: 0 <= i < |order| ==> order[i] in ids) && forall i :: 0 <= i < |ids| ==> ids[i] in order
  {
    if newest then
      assert forall i :: 0 <= i < |order| ==> Reversed(order)[|order| - 1 - i] == order[i];
      Reversed(order)
    else order
  }

  /** One page, or none when the cursor names no record. */
  function HistoryOf(db: Db, q: Query): Option<Page>
    requires forall i :: 0 <= i < |db.order| ==> db.order[i] in db.byId
  {
    var ids := Walk(db.order, q.newest);
    var k := StartOf(ids, q.after);
    if k > |ids| then None else Some(Cut(RowsAt(db.byId, Matching(db.byId, ids[k..], q)), LimitOf(q.limit)))
  }

  predicate Whole(ref: Ref) {
    ref.tenantId != "" && ref.app != "" && ref.env != ""
  }

  /** What Verify asks for. */
  function VerifyQuery(ref: Ref, after: Option<ID>): Query {
    Query(ref, [], None, None, false, after, LIMIT)
  }

  /** A query for one whole Ref and nothing else matches that Ref's rows. */
  lemma {:induction false} OneRefMatches(byId: map<ID, Record>, ids: seq<ID>, q: Query)
    requires forall i :: 0 <= i < |ids| ==> ids[i] in byId
    requires Whole(q.ref) && q.states == [] && q.since.None? && q.until.None?
    ensures Matching(byId, ids, q) == RefIds(byId, ids, q.ref)
  {
    if ids != [] {
      assert forall i :: 0 <= i < |Init(ids)| ==> Init(ids)[i] == ids[i];
      OneRefMatches(byId, Init(ids), q);
    }
  }

  /** So Verify of a whole Ref walks a page of that Ref. */
  lemma VerifyReadsOneRef(db: Db, ref: Ref, after: Option<ID>)
    requires (forall i :: 0 <= i < |db.order| ==> db.order[i] in db.byId) && Whole(ref)
    ensures match HistoryOf(db, VerifyQuery(ref, after))
            case None => PageOf(db, ref, after).None?
            case Some(page) => PageOf(db, ref, after) == Some(page.records)
  {
    var k := StartOf(db.order, after);
    if k <= |db.order| {
      OneRefMatches(db.byId, db.order[k..], VerifyQuery(ref, after));
    }
  }

  /** A page of a Ref after a cursor, or none when the cursor names no record. */
  function PageOf(db: Db, ref: Ref, after: Option<ID>): Option<seq<Record>>
    requires forall i :: 0 <= i < |db.order| ==> db.order[i] in db.byId
  {
    var k := StartOf(db.order, after);
    if k > |db.order| then None else Some(FirstFew(RowsAt(db.byId, RefIds(db.byId, db.order[k..], ref))))
  }

  /** The store as an object, its maps updated in place under one lock. */
  class MemoryStore {
    const h: Hasher
    var byId: map<ID, Record>
    var byKey: map<string, ID>
    var order: seq<ID>
    var seqs: map<Ref, int>
    var heads: map<Ref, Bytes>

    constructor (h: Hasher)
      ensures this.h == h && Contents() == EMPTY
    {
      this.h := h;
      byId, byKey, order, seqs, heads := map[], map[], [], map[], map[];
    }

    ghost function Contents(): Db
      reads this
    {
      Db(byId, byKey, order, seqs, heads)
    }

    method Append(d: Draft, nanos: int, now: Time) returns (reply: Reply)
      requires forall k :: k in byKey ==> byKey[k] in byId
      modifies this
      ensures reply == AppendReply(h, old(Contents()), d, nanos, now)
      ensures Contents() == AfterAppend(h, old(Contents()), d, nanos, now)
    {
      if d.idempotencyKey == "" {
        return KeyRequired;
      }
      if d.idempotencyKey in byKey {
        return Duplicate(byId[byKey[d.idempotencyKey]]);
      }
      var state := if d.state == "" then PENDING else d.state;
      seqs := seqs[d.ref := (if d.ref in seqs then seqs[d.ref] else 0) + 1];
      var created := Canonical(now);
      var prev := if d.ref in heads then heads[d.ref] else [];
      var r := Record(d.idempotencyKey, d.ref, d.actor, d.source, d.image, d.admission, d.note,
                      ID(nanos, d.idempotencyKey), seqs[d.ref], state, state, created, created, [], prev, []);
      r := r.(hash := ChainRecord(h, prev, r));
      heads := heads[d.ref := r.hash];
      byId := byId[r.id := r];
      byKey := byKey[d.idempotencyKey := r.id];
      order := order + [r.id];
      return Stored(r);
    }

    method Move(id: ID, t: Transition, now: Time) returns (reply: Reply)
      modifies this
      ensures reply == MoveReply(h, old(Contents()), id, t, now)
      ensures Contents() == AfterMove(h, old(Contents()), id, t, now)
    {
      if t.at.ns == 0 {
        return Invalid;
      }
      if id !in byId {
        return NotFound;
      }
      var r := byId[id];
      if t.from != [] && r.state !in t.from {
        return Conflict(r);
      }
      if t.expectEvents.Some? && t.expectEvents.value != |r.transitions| {
        return Conflict(r);
      }
      var ev := Event(r.state, t.to, Canonical(t.at), t.reason, t.observation, [], []);
      ev := ev.(observation := ev.observation.(at := Canonical(ev.observation.at)), prevHash := r.hash);
      if r.transitions != [] {
        ev := ev.(prevHash := r.transitions[|r.transitions| - 1].hash);
      }
      ev := ev.(hash := ChainEvent(h, ev.prevHash, r.id, ev));
      assert Bare(ev) == Bare(NewEvent(h, r, t));
      r := r.(transitions := r.transitions + [ev], state := t.to, updatedAt := Canonical(now));
      if t.admission.Some? {
        r := r.(admission := t.admission.value);
      }
      if t.image.Some? {
        r := r.(image := t.image.value);
      }
      byId := byId[id := r];
      return Stored(r);
    }

    /** The second half of Prune, under the lock: which rows were current was found before it. */
    method Prune(cutoff: int, current: set<ID>)
      requires forall i :: 0 <= i < |order| ==> order[i] in byId
      requires forall i, j :: 0 <= i < j < |order| ==> order[i] != order[j]
      modifies this
      ensures Contents() == AfterPrune(old(Contents()), cutoff, current)
    {
      byId, byKey, order := Sweep(byId, byKey, order, cutoff, current);
    }

    /** One page of history, after a cursor. */
    method History(q: Query) returns (page: Option<Page>)
      requires forall i :: 0 <= i < |order| ==> order[i] in byId
      ensures page == HistoryOf(Db(byId, byKey, order, seqs, heads), q)
    {
      var ids := Walk(order, q.newest);
      var started, i := q.after.None?, 0;
      while !started && i < |ids|
        invariant i <= |ids| && (started ==> i == StartOf(ids, q.after)) && (!started ==> i < StartOf(ids, q.after))
      {
        started := q.after == Some(ids[i]);
        i := i + 1;
      }
      if !started {
        return None;
      }
      var rows := FirstRows(byId, ids[i..], q);
      return Some(rows);
    }

    /** Verify: one page from a cursor, walked up to the end of the range. */
    method Verify(ref: Ref, after: Option<ID>, past: ID -> bool) returns (p: Option<Proof>)
      requires forall i :: 0 <= i < |order| ==> order[i] in byId
      ensures var page := HistoryOf(Db(byId, byKey, order, seqs, heads), VerifyQuery(ref, after));
              && (p.None? <==> page.None?)
              && (p.Some? ==> Walked(h, page.value.records, past, p.value))
    {
      var page := History(VerifyQuery(ref, after));
      if page.None? {
        return None;
      }
      var proof := VerifyRows(h, page.value.records, past);
      return Some(proof);
    }
  }

  /** What a proof says of the rows before the end of the range. */
  ghost predicate Walked(h: Hasher, rows: seq<Record>, past: ID -> bool, p: Proof) {
    && (p.valid <==> RowsHold(h, rows, Before(rows, past)))
    && p.records <= Before(rows, past)
    && (p.valid ==> p.records == Before(rows, past) && p.rootHash == Head(h.sha, [], RecordBodies(h, rows[..p.records])))
    && (!p.valid ==> p.records < Before(rows, past) && p.brokenAt == rows[p.records].seqNo)
  }

  /** The maps and the order after a prune has looked at some of the ids. */
  ghost predicate SweptTo(byId0: map<ID, Record>, byKey0: map<string, ID>, done: seq<ID>, cutoff: int, current: set<ID>,
                          byId: map<ID, Record>, byKey: map<string, ID>, kept: seq<ID>)
  {
    && byId == RowsLeft(byId0, done, cutoff, current)
    && byKey == byKey0 - KeysGone(byId0, done, cutoff, current)
    && kept == Surviving(byId0, done, cutoff, current)
  }

  lemma SweptOneMore(byId0: map<ID, Record>, byKey0: map<string, ID>, done: seq<ID>, cutoff: int, current: set<ID>,
                     byId: map<ID, Record>, byKey: map<string, ID>, kept: seq<ID>)
    requires done != [] && Last(done) !in Init(done) && Last(done) in byId0
    requires SweptTo(byId0, byKey0, Init(done), cutoff, current, byId, byKey, kept)
    ensures var id := Last(done);
            && id in byId && byId[id] == byId0[id]
            && if Doomed(byId0, id, cutoff, current) then
                 SweptTo(byId0, byKey0, done, cutoff, current, byId - {id}, byKey - {byId[id].idempotencyKey}, kept)
               else SweptTo(byId0, byKey0, done, cutoff, current, byId, byKey, kept + [id])
  {
    OneMoreExamined(byId0, done, cutoff, current);
  }

  /** The loop of Prune over the order. */
  method Sweep(byId0: map<ID, Record>, byKey0: map<string, ID>, order: seq<ID>, cutoff: int, current: set<ID>)
    returns (byId: map<ID, Record>, byKey: map<string, ID>, kept: seq<ID>)
    requires forall i :: 0 <= i < |order| ==> order[i] in byId0
    requires forall i, j :: 0 <= i < j < |order| ==> order[i] != order[j]
    ensures SweptTo(byId0, byKey0, order, cutoff, current, byId, byKey, kept)
  {
    byId, byKey, kept := byId0, byKey0, [];
    assert SweptTo(byId0, byKey0, order[..0], cutoff, current, byId, byKey, kept);
    for i := 0 to |order|
      invariant SweptTo(byId0, byKey0, order[..i], cutoff, current, byId, byKey, kept)
    {
      var id := order[i];
      assert Init(order[..i + 1]) == order[..i] && Last(order[..i + 1]) == id;
      SweptOneMore(byId0, byKey0, order[..i + 1], cutoff, current, byId, byKey, kept);
      var r := byId[id];
      if r.createdAt.ns < cutoff && id !in current {
        byId := byId - {id};
        byKey := byKey - {r.idempotencyKey};
      } else {
        kept := kept + [id];
      }
    }
    assert order[..|order|] == order;
  }

  lemma OneMoreId(byId: map<ID, Record>, ids: seq<ID>, i: nat, q: Query)
    requires i < |ids| && forall k :: 0 <= k < |ids| ==> ids[k] in byId
    ensures Matching(byId, ids[..i + 1], q) == Matching(byId, ids[..i], q) + if Matches(byId[ids[i]], q) then [ids[i]] else []
  {
    assert Init(ids[..i + 1]) == ids[..i] && Last(ids[..i + 1]) == ids[i];
  }

  lemma {:induction false} MatchingSplit(byId: map<ID, Record>, ids: seq<ID>, k: nat, q: Query)
    requires k <= |ids| && forall i :: 0 <= i < |ids| ==> ids[i] in byId
    ensures Matching(byId, ids, q) == Matching(byId, ids[..k], q) + Matching(byId, ids[k..], q)
  {
    if k == |ids| {
      assert ids[..k] == ids && ids[k..] == [];
    } else {
      var init := Init(ids);
      assert forall i :: 0 <= i < |init| ==> init[i] == ids[i];
      assert init[..k] == ids[..k] && Init(ids[k..]) == init[k..] && Last(ids[k..]) == Last(ids);
      MatchingSplit(byId, init, k, q);
    }
  }

  /** The matching rows along an order, up to the limit of the page. */
  method FirstRows(byId: map<ID, Record>, walk: seq<ID>, q: Query) returns (page: Page)
    requires forall i :: 0 <= i < |walk| ==> walk[i] in byId
    ensures page == Cut(RowsAt(byId, Matching(byId, walk, q)), LimitOf(q.limit))
  {
    var ids := [];
    for i := 0 to |walk|
      invariant ids == Matching(byId, walk[..i], q) && |ids| <= LimitOf(q.limit)
    {
      OneMoreId(byId, walk, i, q);
      if Matches(byId[walk[i]], q) {
        if |ids| == LimitOf(q.limit) {
          PageIsFull(byId, walk, i, q);
          var rows := RowsAt(byId, ids);
          return Page(rows, Some(rows[|rows| - 1].id));
        }
        ids := ids + [walk[i]];
      }
    }
    assert walk[..|walk|] == walk;
    return Page(RowsAt(byId, ids), None);
  }

  lemma PageIsFull(byId: map<ID, Record>, walk: seq<ID>, i: nat, q: Query)
    requires i < |walk| && (forall k :: 0 <= k < |walk| ==> walk[k] in byId) && Matches(byId[walk[i]], q)
    requires |Matching(byId, walk[..i], q)| == LimitOf(q.limit)
    ensures var all, rows := RowsAt(byId, Matching(byId, walk, q)), RowsAt(byId, Matching(byId, walk[..i], q));
            |all| > LimitOf(q.limit) && all[..LimitOf(q.limit)] == rows
  {
    OneMoreId(byId, walk, i, q);
    MatchingSplit(byId, walk, i + 1, q);
  }

  // ---- Whole runs, with each record remembered as it was appended ----

  datatype Op = Append(draft: Draft, nanos: int, now: Time) | Move(id: ID, change: Transition, now: Time)

  datatype World = World(db: Db, born: map<ID, Record>)

  function Step(h: Hasher, w: World, op: Op): World {
    match op
    case Append(d, nanos, now) =>
      var reply := AppendReply(h, w.db, d, nanos, now);
      World(AfterAppend(h, w.db, d, nanos, now),
            if reply.Stored? then w.born[reply.record.id := reply.record] else w.born)
    case Move(id, t, now) => World(AfterMove(h, w.db, id, t, now), w.born)
  }

  function Run(h: Hasher, ops: seq<Op>): World {
    if ops == [] then World(EMPTY, map[]) else Step(h, Run(h, Init(ops)), Last(ops))
  }

  // ---- The invariant ----

  function FromBefore(initial: State, events: seq<Event>, i: nat): State
    requires i <= |events|
  {
    if i == 0 then initial else events[i - 1].to
  }

  /** One event continues the one before it: state, hash and canonical times. */
  predicate EventContinues(h: Hasher, r: Record, i: nat)
    requires i < |r.transitions|
  {
    var e := r.transitions[i];
    && e.from == FromBefore(r.initialState, r.transitions, i)
    && e.prevHash == PrevEventOf(r.hash, r.transitions, i)
    && EventLinkedAt(h, r.hash, r.id, r.transitions, i)
    && e.at == Canonical(e.at) && e.observation.at == Canonical(e.observation.at)
  }

  /** A row against the record it was appended as. */
  ghost predicate RowOk(h: Hasher, id: ID, r: Record, b: Record) {
    && b.id == id && b.idempotencyKey == id.key && b.transitions == [] && b.state == b.initialState
    && b.createdAt == Canonical(b.createdAt)
    && b.hash == ChainRecord(h, b.prevHash, b)
    && r == b.(state := r.state, updatedAt := r.updatedAt, transitions := r.transitions,
               admission := r.admission, image := r.image)
    && r.state == FromBefore(r.initialState, r.transitions, |r.transitions|)
    && (forall i :: 0 <= i < |r.transitions| ==> EventContinues(h, r, i))
  }

  ghost predicate Indexed(db: Db) {
    && (forall id :: id in db.byId ==> id.key in db.byKey && db.byKey[id.key] == id)
    && (forall k :: k in db.byKey ==> db.byKey[k] in db.byId && db.byKey[k].key == k)
    && (forall i :: 0 <= i < |db.order| ==> db.order[i] in db.byId)
    && (forall id :: id in db.byId ==> id in db.order)
  }

  predicate PlacedAt(byId: map<ID, Record>, ids: seq<ID>, i: nat)
    requires i < |ids| && forall k :: 0 <= k < |ids| ==> ids[k] in byId
  {
    byId[ids[i]].seqNo == i + 1 && byId[ids[i]].prevHash == if i == 0 then [] else byId[ids[i - 1]].hash
  }

  /** Seq is gapless from one, and each row carries the hash of the row before it. */
  ghost predicate RefOk(db: Db, ids: seq<ID>, ref: Ref)
    requires forall i :: 0 <= i < |ids| ==> ids[i] in db.byId
  {
    && (ref in db.seqs <==> ids != []) && (ref in db.heads <==> ids != [])
    && (ids != [] ==> db.seqs[ref] == |ids| && db.heads[ref] == db.byId[Last(ids)].hash)
    && (forall i :: 0 <= i < |ids| ==> PlacedAt(db.byId, ids, i))
  }

  ghost predicate RefPlaced(db: Db, ref: Ref)
    requires forall i :: 0 <= i < |db.order| ==> db.order[i] in db.byId
  {
    RefOk(db, RefIds(db.byId, db.order, ref), ref)
  }

  ghost predicate RowBorn(h: Hasher, w: World, id: ID)
    requires id in w.db.byId && id in w.born
  {
    RowOk(h, id, w.db.byId[id], w.born[id])
  }

  ghost predicate AllBorn(h: Hasher, w: World) {
    w.born.Keys == w.db.byId.Keys && forall id :: id in w.db.byId ==> RowBorn(h, w, id)
  }

  ghost predicate AllPlaced(db: Db) {
    Indexed(db) && forall ref :: RefPlaced(db, ref)
  }

  ghost predicate Inv(h: Hasher, w: World) {
    AllBorn(h, w) && AllPlaced(w.db)
  }

  lemma {:induction false} RefIdsSame(byId: map<ID, Record>, byId': map<ID, Record>, order: seq<ID>, ref: Ref)
    requires forall i :: 0 <= i < |order| ==> order[i] in byId && order[i] in byId' && byId[order[i]].ref == byId'[order[i]].ref
    ensures RefIds(byId, order, ref) == RefIds(byId', order, ref)
  {
    if order != [] {
      assert forall i :: 0 <= i < |Init(order)| ==> Init(order)[i] == order[i];
      RefIdsSame(byId, byId', Init(order), ref);
    }
  }

  lemma MovedRowOk(h: Hasher, id: ID, r: Record, b: Record, t: Transition, now: Time)
    requires RowOk(h, id, r, b)
    ensures RowOk(h, id, Moved(h, r, t, now), b)
  {
    var r' := Moved(h, r, t, now);
    var e := NewEvent(h, r, t);
    assert Bare(e) == Bare(e.(hash := []));
    forall i | 0 <= i < |r'.transitions| ensures EventContinues(h, r', i) {
      if i < |r.transitions| {
        assert EventContinues(h, r, i);
      }
    }
  }

  /** Replacing a row by one with the same place in its chain disturbs no Ref. */
  lemma ReplacedRowKeepsRef(db: Db, id: ID, r': Record, ref: Ref)
    requires Indexed(db) && id in db.byId && RefPlaced(db, ref)
    requires var r := db.byId[id]; r'.ref == r.ref && r'.seqNo == r.seqNo && r'.prevHash == r.prevHash && r'.hash == r.hash
    ensures RefPlaced(db.(byId := db.byId[id := r']), ref)
  {
    var byId', ids := db.byId[id := r'], RefIds(db.byId, db.order, ref);
    RefIdsSame(db.byId, byId', db.order, ref);
    forall i | 0 <= i < |ids| ensures PlacedAt(byId', ids, i) {
      assert PlacedAt(db.byId, ids, i);
    }
  }

  lemma ReplacedRowKeepsPlaces(db: Db, id: ID, r': Record)
    requires AllPlaced(db) && id in db.byId
    requires var r := db.byId[id]; r'.ref == r.ref && r'.seqNo == r.seqNo && r'.prevHash == r.prevHash && r'.hash == r.hash
    ensures AllPlaced(db.(byId := db.byId[id := r']))
  {
    var db' := db.(byId := db.byId[id := r']);
    assert db'.byId.Keys == db.byId.Keys;
    forall ref ensures RefPlaced(db', ref) {
      ReplacedRowKeepsRef(db, id, r', ref);
    }
  }

  lemma SameRecordSamePlace(h: Hasher, id: ID, r: Record, r': Record, b: Record)
    requires RowOk(h, id, r, b) && RowOk(h, id, r', b)
    ensures r'.ref == r.ref && r'.seqNo == r.seqNo && r'.prevHash == r.prevHash && r'.hash == r.hash
  {}

  lemma ReplacedRowKeepsBorn(h: Hasher, w: World, id: ID, r': Record)
    requires AllBorn(h, w) && id in w.db.byId && RowOk(h, id, r', w.born[id])
    ensures AllBorn(h, w.(db := w.db.(byId := w.db.byId[id := r'])))
  {
    var w' := w.(db := w.db.(byId := w.db.byId[id := r']));
    forall x | x in w.db.byId && x != id ensures RowOk(h, x, w.db.byId[x], w.born[x]) {
      assert RowBorn(h, w, x);
    }
    assert RowBorn(h, w', id);
  }

  lemma MoveKeepsInv(h: Hasher, w: World, id: ID, t: Transition, now: Time)
    requires Inv(h, w)
    ensures Inv(h, Step(h, w, Move(id, t, now)))
  {
    if MoveReply(h, w.db, id, t, now).Stored? {
      assert RowBorn(h, w, id);
      MovedRowOk(h, id, w.db.byId[id], w.born[id], t, now);
      SameRecordSamePlace(h, id, w.db.byId[id], Moved(h, w.db.byId[id], t, now), w.born[id]);
      ReplacedRowKeepsBorn(h, w, id, Moved(h, w.db.byId[id], t, now));
      ReplacedRowKeepsPlaces(w.db, id, Moved(h, w.db.byId[id], t, now));
    }
  }

  lemma ExtendedIsIndexed(db: Db, r: Record)
    requires Indexed(db) && r.idempotencyKey == r.id.key && r.id.key !in db.byKey
    ensures Indexed(Extended(db, r))
  {
    var db' := Extended(db, r);
    forall id | id in db'.byId ensures id in db'.order {
      if id == r.id {
        assert db'.order[|db.order|] == id;
      } else {
        var i :| 0 <= i < |db.order| && db.order[i] == id;
        assert db'.order[i] == id;
      }
    }
  }

  lemma SnocIds(byId: map<ID, Record>, order: seq<ID>, r: Record, ref: Ref)
    requires (forall i :: 0 <= i < |order| ==> order[i] in byId) && r.id !in byId
    ensures RefIds(byId[r.id := r], order + [r.id], ref) == RefIds(byId, order, ref) + if r.ref == ref then [r.id] else []
  {
    assert Init(order + [r.id]) == order && Last(order + [r.id]) == r.id;
    RefIdsSame(byId, byId[r.id := r], order, ref);
  }

  lemma ExtendedIds(db: Db, r: Record, ref: Ref)
    requires Indexed(db) && r.id !in db.byId && Indexed(Extended(db, r))
    ensures RefIds(Extended(db, r).byId, Extended(db, r).order, ref)
         == RefIds(db.byId, db.order, ref) + if r.ref == ref then [r.id] else []
  {
    SnocIds(db.byId, db.order, r, ref);
  }

  lemma ExtendedPlaces(byId: map<ID, Record>, ids: seq<ID>, r: Record, i: nat)
    requires r.id !in byId && forall k :: 0 <= k < |ids| ==> ids[k] in byId
    requires i < |ids| && PlacedAt(byId, ids, i)
    ensures PlacedAt(byId[r.id := r], ids, i) && PlacedAt(byId[r.id := r], ids + [r.id], i)
  {}

  lemma ExtendedKeepsRef(db: Db, r: Record, ref: Ref)
    requires Indexed(db) && r.id !in db.byId && Indexed(Extended(db, r))
    requires RefPlaced(db, ref)
    requires r.seqNo == (if r.ref in db.seqs then db.seqs[r.ref] else 0) + 1
    requires r.prevHash == if r.ref in db.heads then db.heads[r.ref] else []
    ensures RefPlaced(Extended(db, r), ref)
  {
    var ids, ids' := RefIds(db.byId, db.order, ref), RefIds(Extended(db, r).byId, Extended(db, r).order, ref);
    ExtendedIds(db, r, ref);
    ExtendedRefOk(db, r, ids, ids', ref);
  }

  lemma ExtendedRefOk(db: Db, r: Record, ids: seq<ID>, ids': seq<ID>, ref: Ref)
    requires r.id !in db.byId && (forall i :: 0 <= i < |ids| ==> ids[i] in db.byId)
    requires RefOk(db, ids, ref) && ids' == ids + if r.ref == ref then [r.id] else []
    requires r.seqNo == (if r.ref in db.seqs then db.seqs[r.ref] else 0) + 1
    requires r.prevHash == if r.ref in db.heads then db.heads[r.ref] else []
    ensures forall i :: 0 <= i < |ids'| ==> ids'[i] in Extended(db, r).byId
    ensures RefOk(Extended(db, r), ids', ref)
  {
    var byId' := db.byId[r.id := r];
    forall i | 0 <= i < |ids| ensures PlacedAt(byId', ids', i) {
      ExtendedPlaces(db.byId, ids, r, i);
    }
    if r.ref == ref {
      assert PlacedAt(byId', ids', |ids|);
    }
  }

  lemma NewRecordOk(h: Hasher, db: Db, d: Draft, nanos: int, now: Time)
    ensures var r := NewRecord(h, db, d, nanos, now);
            && RowOk(h, r.id, r, r) && r.id == ID(nanos, d.idempotencyKey) && r.ref == d.ref
            && r.seqNo == (if r.ref in db.seqs then db.seqs[r.ref] else 0) + 1
            && r.prevHash == if r.ref in db.heads then db.heads[r.ref] else []
  {
    var r := NewRecord(h, db, d, nanos, now);
    assert Chained(r) == Chained(r.(hash := []));
  }

  lemma ExtendedKeepsPlaces(db: Db, r: Record)
    requires AllPlaced(db) && r.idempotencyKey == r.id.key && r.id.key !in db.byKey
    requires r.seqNo == (if r.ref in db.seqs then db.seqs[r.ref] else 0) + 1
    requires r.prevHash == if r.ref in db.heads then db.heads[r.ref] else []
    ensures AllPlaced(Extended(db, r))
  {
    assert r.id !in db.byId;
    ExtendedIsIndexed(db, r);
    var db' := Extended(db, r);
    forall ref ensures RefPlaced(db', ref) {
      ExtendedKeepsRef(db, r, ref);
    }
  }

  lemma ExtendedKeepsBorn(h: Hasher, w: World, r: Record)
    requires AllBorn(h, w) && RowOk(h, r.id, r, r)
    ensures AllBorn(h, World(Extended(w.db, r), w.born[r.id := r]))
  {
    var w' := World(Extended(w.db, r), w.born[r.id := r]);
    forall x | x in w'.db.byId ensures RowBorn(h, w', x) {
      assert x != r.id ==> RowBorn(h, w, x);
    }
  }

  lemma AppendKeepsInv(h: Hasher, w: World, d: Draft, nanos: int, now: Time)
    requires Inv(h, w)
    ensures Inv(h, Step(h, w, Append(d, nanos, now)))
  {
    if AppendReply(h, w.db, d, nanos, now).Stored? {
      NewRecordOk(h, w.db, d, nanos, now);
      ExtendedKeepsBorn(h, w, NewRecord(h, w.db, d, nanos, now));
      ExtendedKeepsPlaces(w.db, NewRecord(h, w.db, d, nanos, now));
    }
  }

  /** Every reachable store satisfies the invariant, over any run on any number of Refs. */
  lemma {:induction false} RunKeepsInv(h: Hasher, ops: seq<Op>)
    ensures Inv(h, Run(h, ops))
  {
    if ops == [] {
    } else {
      RunKeepsInv(h, Init(ops));
      match Last(ops)
      case Append(d, nanos, now) => AppendKeepsInv(h, Run(h, Init(ops)), d, nanos, now);
      case Move(id, t, now) => MoveKeepsInv(h, Run(h, Init(ops)), id, t, now);
    }
  }

  // ---- The rows of one Ref ----

  function RowsOf(db: Db, ref: Ref): (rows: seq<Record>)
    requires forall i :: 0 <= i < |db.order| ==> db.order[i] in db.byId
    ensures |rows| == |RefIds(db.byId, db.order, ref)|
    ensures forall i :: 0 <= i < |rows| ==> rows[i] == db.byId[RefIds(db.byId, db.order, ref)[i]]
  {
    var ids := RefIds(db.byId, db.order, ref);
    seq(|ids|, i requires 0 <= i < |ids| => db.byId[ids[i]])
  }

  /**
   What a reader may rely on about the i-th row of a Ref: Seq counts from one;
   the row is held under its own id; its hash is the hash of the record as it was
   appended over the hash of the row before; each event leaves the state the one
   before it reached, and State is where the last one ended.
   */
  ghost predicate LogRow(h: Hasher, w: World, ref: Ref, rows: seq<Record>, i: nat)
    requires i < |rows|
  {
    var r := rows[i];
    && r.ref == ref && r.seqNo == i + 1
    && r.id in w.db.byId && w.db.byId[r.id] == r && r.id in w.born && RowOk(h, r.id, r, w.born[r.id])
    && r.prevHash == PrevOf(rows, i) && r.hash == ChainRecord(h, PrevOf(rows, i), w.born[r.id])
    && EventsLinked(h, r.hash, r.id, r.transitions)
    && (forall j :: 0 <= j < |r.transitions| ==> r.transitions[j].from == FromBefore(r.initialState, r.transitions, j))
    && r.state == FromBefore(r.initialState, r.transitions, |r.transitions|)
  }

  lemma RowContinues(h: Hasher, id: ID, r: Record, b: Record)
    requires RowOk(h, id, r, b)
    ensures EventsLinked(h, r.hash, r.id, r.transitions)
    ensures forall j :: 0 <= j < |r.transitions| ==> r.transitions[j].from == FromBefore(r.initialState, r.transitions, j)
  {
    forall j | 0 <= j < |r.transitions|
      ensures EventLinkedAt(h, r.hash, r.id, r.transitions, j)
      ensures r.transitions[j].from == FromBefore(r.initialState, r.transitions, j)
    {
      assert EventContinues(h, r, j);
    }
  }

  lemma InvGivesLogRow(h: Hasher, w: World, ref: Ref, i: nat)
    requires Inv(h, w) && i < |RowsOf(w.db, ref)|
    ensures LogRow(h, w, ref, RowsOf(w.db, ref), i)
  {
    var rows, ids := RowsOf(w.db, ref), RefIds(w.db.byId, w.db.order, ref);
    assert RefPlaced(w.db, ref) && PlacedAt(w.db.byId, ids, i);
    assert RowBorn(h, w, ids[i]);
    RowContinues(h, ids[i], rows[i], w.born[ids[i]]);
  }

  /** After any run of appends, duplicate appends and transitions, every Ref is such a log. */
  lemma RefIsALog(h: Hasher, ops: seq<Op>, ref: Ref)
    ensures Inv(h, Run(h, ops))
    ensures forall i :: 0 <= i < |RowsOf(Run(h, ops).db, ref)| ==>
                          LogRow(h, Run(h, ops), ref, RowsOf(Run(h, ops).db, ref), i)
  {
    RunKeepsInv(h, ops);
    forall i | 0 <= i < |RowsOf(Run(h, ops).db, ref)| ensures LogRow(h, Run(h, ops), ref, RowsOf(Run(h, ops).db, ref), i) {
      InvGivesLogRow(h, Run(h, ops), ref, i);
    }
  }

  // ---- When re-deriving the chain verifies ----

  /** The row still carries the image and the admission it was appended with. */
  predicate Undrifted(w: World, r: Record) {
    r.id in w.born && r.image == w.born[r.id].image && r.admission == w.born[r.id].admission
  }

  /** A row of the log re-derives to its hash if it is undrifted, and only then. */
  lemma RowHoldsIffUndrifted(h: Hasher, w: World, ref: Ref, rows: seq<Record>, i: nat) returns (c: Option<Collision>)
    requires i < |rows| && LogRow(h, w, ref, rows, i)
    ensures c.Some? ==> Collides(h.sha, c.value)
    ensures Undrifted(w, rows[i]) ==> RowHolds(h, rows, i)
    ensures c.None? && Separates(h) && RowHolds(h, rows, i) ==> Undrifted(w, rows[i])
  {
    var r, b := rows[i], w.born[rows[i].id];
    assert Chained(r) == Chained(b) <==> Undrifted(w, r);
    var prev, x, y := PrevOf(rows, i), h.recordJson(Chained(r)), h.recordJson(Chained(b));
    c := None;
    if prev + x == prev + y {
      ConcatSplits(prev, x, prev, y);
    } else if h.sha(prev + x) == h.sha(prev + y) {
      c := Some(Collision(prev + x, prev + y));
    }
  }

  lemma {:induction false} RowsHoldIffUndrifted(h: Hasher, w: World, ref: Ref, rows: seq<Record>, n: nat)
    returns (c: Option<Collision>)
    requires n <= |rows| && forall i :: 0 <= i < n ==> LogRow(h, w, ref, rows, i)
    ensures c.Some? ==> Collides(h.sha, c.value)
    ensures (forall i :: 0 <= i < n ==> Undrifted(w, rows[i])) ==> RowsHold(h, rows, n)
    ensures c.None? && Separates(h) && RowsHold(h, rows, n) ==> forall i :: 0 <= i < n ==> Undrifted(w, rows[i])
  {
    c := None;
    if n > 0 {
      c := RowsHoldIffUndrifted(h, w, ref, rows, n - 1);
      var c' := RowHoldsIffUndrifted(h, w, ref, rows, n - 1);
      assert RowsHold(h, rows, n) <==> RowsHold(h, rows, n - 1) && RowHolds(h, rows, n - 1);
      if c.None? {
        c := c';
      }
    }
  }

  ghost predicate AllUndrifted(w: World, rows: seq<Record>, n: nat)
    requires n <= |rows|
  {
    forall i :: 0 <= i < n ==> Undrifted(w, rows[i])
  }

  /**
   Over every run, Verify accepts the first n rows of a Ref if and only if none
   of them has had its image or admission replaced by a transition, short of a
   hash collision, which is then handed over.
   */
  lemma VerifiesIffUndrifted(h: Hasher, ops: seq<Op>, ref: Ref, rows: seq<Record>, n: nat) returns (c: Option<Collision>)
    requires Inv(h, Run(h, ops)) && rows == RowsOf(Run(h, ops).db, ref) && n <= |rows|
    ensures c.Some? ==> Collides(h.sha, c.value)
    ensures AllUndrifted(Run(h, ops), rows, n) ==> RowsHold(h, rows, n)
    ensures c.None? && Separates(h) ==> (RowsHold(h, rows, n) <==> AllUndrifted(Run(h, ops), rows, n))
  {
    RefIsALog(h, ops, ref);
    c := RowsHoldIffUndrifted(h, Run(h, ops), ref, rows, n);
  }

  /** No transition of the run carries an image or an admission. */
  predicate Quiet(ops: seq<Op>) {
    forall i :: 0 <= i < |ops| && ops[i].Move? ==> ops[i].change.image.None? && ops[i].change.admission.None?
  }

  /** A held record still carries what it was appended with. */
  ghost predicate AsBorn(w: World, id: ID) {
    id in w.db.byId ==>
      id in w.born && w.db.byId[id].image == w.born[id].image && w.db.byId[id].admission == w.born[id].admission
  }

  lemma QuietStepDoesNotDrift(h: Hasher, w: World, op: Op, id: ID)
    requires AsBorn(w, id) && (op.Move? ==> op.change.image.None? && op.change.admission.None?)
    ensures AsBorn(Step(h, w, op), id)
  {}

  lemma {:induction false} QuietRunsDoNotDrift(h: Hasher, ops: seq<Op>, id: ID)
    requires Quiet(ops)
    ensures AsBorn(Run(h, ops), id)
  {
    if ops != [] {
      assert forall i :: 0 <= i < |Init(ops)| ==> Init(ops)[i] == ops[i];
      QuietRunsDoNotDrift(h, Init(ops), id);
      QuietStepDoesNotDrift(h, Run(h, Init(ops)), Last(ops), id);
    }
  }

  /** A run whose transitions carry neither always verifies, whatever the hash. */
  lemma QuietRunsVerify(h: Hasher, ops: seq<Op>, ref: Ref)
    requires Quiet(ops)
    ensures Inv(h, Run(h, ops)) && RowsHold(h, RowsOf(Run(h, ops).db, ref), |RowsOf(Run(h, ops).db, ref)|)
  {
    RefIsALog(h, ops, ref);
    var w := Run(h, ops);
    var rows := RowsOf(w.db, ref);
    forall i | 0 <= i < |rows| ensures Undrifted(w, rows[i]) {
      assert LogRow(h, w, ref, rows, i);
      QuietRunsDoNotDrift(h, ops, rows[i].id);
    }
    var c := VerifiesIffUndrifted(h, ops, ref, rows, |rows|);
  }

  /** One transition that learns a different image makes Verify refuse the record it moved. */
  lemma LearnedImageBreaksVerify(h: Hasher, d: Draft, nanos: int, now: Time, t: Transition, at: Time)
    returns (c: Option<Collision>)
    requires Separates(h) && d.idempotencyKey != "" && t.at.ns != 0
    requires t.from == [] && t.expectEvents.None? && t.image.Some? && t.image.value != d.image
    ensures c.Some? ==> Collides(h.sha, c.value)
    ensures var w := Run(h, [Append(d, nanos, now), Move(ID(nanos, d.idempotencyKey), t, at)]);
            Inv(h, w) && |RowsOf(w.db, d.ref)| == 1 && (c.None? ==> !RowsHold(h, RowsOf(w.db, d.ref), 1))
  {
    var id := ID(nanos, d.idempotencyKey);
    var ops := [Append(d, nanos, now), Move(id, t, at)];
    LearnedRow(h, d, nanos, now, t, at);
    RunKeepsInv(h, ops);
    var rows := RowsOf(Run(h, ops).db, d.ref);
    c := VerifiesIffUndrifted(h, ops, d.ref, rows, 1);
    assert !Undrifted(Run(h, ops), rows[0]);
  }

  /** The two operations leave one row, whose image is no longer the one it was appended with. */
  lemma LearnedRow(h: Hasher, d: Draft, nanos: int, now: Time, t: Transition, at: Time)
    requires d.idempotencyKey != "" && t.at.ns != 0
    requires t.from == [] && t.expectEvents.None? && t.image.Some? && t.image.value != d.image
    ensures var id := ID(nanos, d.idempotencyKey);
            var w := Run(h, [Append(d, nanos, now), Move(id, t, at)]);
            && Inv(h, w)
            && |RowsOf(w.db, d.ref)| == 1 && RowsOf(w.db, d.ref)[0].id == id && RowsOf(w.db, d.ref)[0].image == t.image.value
            && id in w.born && w.born[id].image == d.image
  {
    var id := ID(nanos, d.idempotencyKey);
    var op0, op1 := Append(d, nanos, now), Move(id, t, at);
    RunKeepsInv(h, [op0, op1]);
    TwoSteps(h, op0, op1);
    var w1 := Step(h, World(EMPTY, map[]), op0);
    FirstAppend(h, d, nanos, now);
    MoveLearns(h, w1, id, t, at);
    OnlyRow(Step(h, w1, op1).db, id, d.ref);
  }

  lemma TwoSteps(h: Hasher, op0: Op, op1: Op)
    ensures Run(h, [op0, op1]) == Step(h, Step(h, World(EMPTY, map[]), op0), op1)
  {
    assert Init([op0]) == [] && Last([op0]) == op0 && Init([op0, op1]) == [op0] && Last([op0, op1]) == op1;
    assert Run(h, []) == World(EMPTY, map[]);
  }

  lemma FirstAppend(h: Hasher, d: Draft, nanos: int, now: Time)
    requires d.idempotencyKey != ""
    ensures var id, w := ID(nanos, d.idempotencyKey), Step(h, World(EMPTY, map[]), Append(d, nanos, now));
            && w.db.order == [id] && id in w.db.byId && w.db.byId[id].id == id && w.db.byId[id].ref == d.ref
            && id in w.born && w.born[id].image == d.image
  {}

  lemma MoveLearns(h: Hasher, w: World, id: ID, t: Transition, at: Time)
    requires id in w.db.byId && w.db.byId[id].id == id && t.at.ns != 0 && t.from == [] && t.expectEvents.None? && t.image.Some?
    ensures var w' := Step(h, w, Move(id, t, at));
            && w'.db.order == w.db.order && w'.born == w.born && id in w'.db.byId
            && w'.db.byId[id].id == id && w'.db.byId[id].ref == w.db.byId[id].ref && w'.db.byId[id].image == t.image.value
  {}

  lemma OnlyRow(db: Db, id: ID, ref: Ref)
    requires db.order == [id] && id in db.byId && db.byId[id].ref == ref
    ensures RowsOf(db, ref) == [db.byId[id]]
  {
    var one := [id];
    assert Init(one) == [] && Last(one) == id;
    assert RefIds(db.byId, [], ref) == [];
    assert RefIds(db.byId, db.order, ref) == one;
  }

  // ---- The version fence ----

  /** Nothing a record has recorded is ever taken back or rewritten. */
  ghost predicate Grew(r: Record, r': Record) {
    && r.transitions <= r'.transitions
    && r'.hash == r.hash && r'.prevHash == r.prevHash && r'.seqNo == r.seqNo && r'.id == r.id && r'.ref == r.ref
    && r'.initialState == r.initialState && r'.createdAt == r.createdAt
    && (|r.transitions| == |r'.transitions| ==> r' == r)
  }

  lemma MovedGrew(h: Hasher, r: Record, t: Transition, now: Time)
    ensures Grew(r, Moved(h, r, t, now))
  {}

  lemma AppendOnlyGrows(h: Hasher, w: World, d: Draft, nanos: int, now: Time, id: ID)
    requires Indexed(w.db) && id in w.db.byId
    ensures id in AfterAppend(h, w.db, d, nanos, now).byId && AfterAppend(h, w.db, d, nanos, now).byId[id] == w.db.byId[id]
  {
    if AppendReply(h, w.db, d, nanos, now).Stored? {
      assert NewRecord(h, w.db, d, nanos, now).id == ID(nanos, d.idempotencyKey) != id;
    }
  }

  lemma StepOnlyGrows(h: Hasher, w: World, op: Op, id: ID)
    requires Indexed(w.db) && id in w.db.byId
    ensures id in Step(h, w, op).db.byId && Grew(w.db.byId[id], Step(h, w, op).db.byId[id])
  {
    match op
    case Append(d, nanos, now) => AppendOnlyGrows(h, w, d, nanos, now, id);
    case Move(id', t, now) => MoveOnlyGrows(h, w.db, id', t, now, id);
  }

  lemma MoveOnlyGrows(h: Hasher, db: Db, moved: ID, t: Transition, now: Time, id: ID)
    requires id in db.byId
    ensures id in AfterMove(h, db, moved, t, now).byId && Grew(db.byId[id], AfterMove(h, db, moved, t, now).byId[id])
  {
    if moved in db.byId {
      MovedGrew(h, db.byId[moved], t, now);
    }
  }

  /** No operation changes a record's own hash or undoes an event, over any stretch of a run. */
  lemma {:induction false} RunOnlyGrows(h: Hasher, ops: seq<Op>, i: nat, id: ID)
    requires i <= |ops| && id in Run(h, ops[..i]).db.byId
    ensures id in Run(h, ops).db.byId && Grew(Run(h, ops[..i]).db.byId[id], Run(h, ops).db.byId[id])
  {
    if i == |ops| {
      assert ops[..i] == ops;
    } else {
      assert ops[..i] == Init(ops)[..i];
      RunOnlyGrows(h, Init(ops), i, id);
      RunKeepsInv(h, Init(ops));
      StepOnlyGrows(h, Run(h, Init(ops)), Last(ops), id);
    }
  }

  /**
   A write fenced on the version read after i operations, arriving after the whole
   run by whichever observers, is stored if and only if its From allows the state
   and nothing has been recorded on the record since; the row it lands on is then
   the very row it was computed from.
   */
  lemma FenceAdmitsOnlyFreshWrites(h: Hasher, ops: seq<Op>, i: nat, id: ID, t: Transition, now: Time)
    requires i <= |ops| && id in Run(h, ops[..i]).db.byId && t.at.ns != 0
    requires t.expectEvents == Some(|Run(h, ops[..i]).db.byId[id].transitions|)
    ensures id in Run(h, ops).db.byId
    ensures MoveReply(h, Run(h, ops).db, id, t, now).Stored?
       <==> && Run(h, ops).db.byId[id] == Run(h, ops[..i]).db.byId[id]
            && (t.from != [] ==> Run(h, ops[..i]).db.byId[id].state in t.from)
  {
    RunOnlyGrows(h, ops, i, id);
  }

  /** Without the fence, a state that left and came back lets a stale decision land. */
  lemma FromAloneAdmitsStaleWrites(h: Hasher, d: Draft, nanos: int, now: Time, t: Transition)
    requires d.idempotencyKey != "" && d.state == "" && t.at.ns != 0
    requires t.from == [PENDING] && t.expectEvents.None?
    ensures var id := ID(nanos, d.idempotencyKey);
            var out, back := Move(id, t.(to := "syncing"), now), Move(id, t.(from := [], to := PENDING), now);
            var ops := [Append(d, nanos, now), out, back];
            && id in Run(h, ops[..1]).db.byId && id in Run(h, ops).db.byId
            && |Run(h, ops).db.byId[id].transitions| == |Run(h, ops[..1]).db.byId[id].transitions| + 2
            && MoveReply(h, Run(h, ops).db, id, t, now).Stored?
  {
    var id := ID(nanos, d.idempotencyKey);
    var op0, out, back := Append(d, nanos, now), Move(id, t.(to := "syncing"), now), Move(id, t.(from := [], to := PENDING), now);
    var ops := [op0, out, back];
    assert ops[..1] == [op0] && Init([op0]) == [] && Init([op0, out]) == [op0] && Init(ops) == [op0, out];
    var w1 := Run(h, [op0]);
    assert Run(h, []) == World(EMPTY, map[]) && w1 == Step(h, World(EMPTY, map[]), op0);
    assert w1.db.byId[id].state == PENDING && w1.db.byId[id].transitions == [];
    var w2 := Run(h, [op0, out]);
    assert w2.db.byId[id] == Moved(h, w1.db.byId[id], out.change, now);
    assert Run(h, ops).db.byId[id] == Moved(h, w2.db.byId[id], back.change, now);
  }
}
