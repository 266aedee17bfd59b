/**
 Finding a deploy by its number, as recordBySeq of server/lifecycle.go does: a
 walk backwards through the evidence store, a page at a time, while other
 writers append, move and prune between pages; bounded at 2000 records read.
 */
module Rollback {
  import opened Common
  import opened EvidenceChain
  import opened EvidenceStore
  import opened EvidencePruning

  const ROLLBACK_PAGE := 200
  const MAX_ROLLBACK_SCAN := 2000

  // ---- The store a page is read from ----

  /** Rows held under their own ids, those of one Ref in the order of their Seq. */
  ghost predicate Readable(db: Db) {
    && (forall i :: 0 <= i < |db.order| ==> db.order[i] in db.byId)
    && (forall id :: id in db.byId ==> id in db.order && db.byId[id].id == id)
    && InSeqOrder(db.byId, db.order)
  }

  /** Every store a run of appends, transitions and prunes leaves can be read. */
  lemma RunsAreReadable(h: Hasher, actions: seq<Action>)
    ensures Readable(Told(h, actions).db)
  {
    RunIsSound(h, actions);
    var c := Told(h, actions);
    forall id | id in c.db.byId ensures c.db.byId[id].id == id {
      assert Rooted(h, c.log, id, c.db.byId[id]);
    }
  }

  ghost predicate Row(db: Db, ref: Ref, r: Record) {
    r.id in db.byId && db.byId[r.id] == r && r.ref == ref
  }

  // ---- The rows behind a cursor ----

  function NewestFirst(ref: Ref, after: Option<ID>): Query {
    Query(ref, [], None, None, true, after, ROLLBACK_PAGE)
  }

  /** Ids of which each of one Ref is older than those before it. */
  ghost predicate Backwards(byId: map<ID, Record>, ids: seq<ID>) {
    forall i, j :: 0 <= i < j < |ids| ==> Follows(byId, ids[j], ids[i])
  }

  lemma ReversedIsBackwards(byId: map<ID, Record>, order: seq<ID>)
    requires InSeqOrder(byId, order)
    ensures Backwards(byId, Reversed(order))
  {
    var ids, n := Reversed(order), |order|;
    forall i, j | 0 <= i < j < n ensures Follows(byId, ids[j], ids[i]) {
      assert Follows(byId, order[n - 1 - j], order[n - 1 - i]);
    }
  }

  lemma BackwardsFrom(byId: map<ID, Record>, ids: seq<ID>, k: nat)
    requires Backwards(byId, ids) && k <= |ids|
    ensures Backwards(byId, ids[k..])
  {
    forall i, j | 0 <= i < j < |ids| - k ensures Follows(byId, ids[k..][j], ids[k..][i]) {
      assert Follows(byId, ids[k + j], ids[k + i]);
    }
  }

  lemma {:induction false} MatchingListed(byId: map<ID, Record>, ids: seq<ID>, q: Query, id: ID)
    requires forall i :: 0 <= i < |ids| ==> ids[i] in byId
    ensures id in Matching(byId, ids, q) <==> id in ids && Matches(byId[id], q)
  {
    if ids != [] {
      assert ids == Init(ids) + [Last(ids)];
      assert forall i :: 0 <= i < |Init(ids)| ==> Init(ids)[i] == ids[i];
      MatchingListed(byId, Init(ids), q, id);
    }
  }

  lemma BackwardsInit(byId: map<ID, Record>, ids: seq<ID>)
    requires ids != [] && Backwards(byId, ids)
    ensures Backwards(byId, Init(ids)) && forall id :: id in Init(ids) ==> Follows(byId, Last(ids), id)
  {
    var init := Init(ids);
    forall i, j | 0 <= i < j < |init| ensures Follows(byId, init[j], init[i]) {
      assert Follows(byId, ids[j], ids[i]);
    }
    forall id | id in init ensures Follows(byId, Last(ids), id) {
      var k :| 0 <= k < |init| && init[k] == id;
      assert Follows(byId, ids[|ids| - 1], ids[k]);
    }
  }

  /** Rows in descending order of Seq. */
  ghost predicate Falling(rows: seq<Record>) {
    forall i, j :: 0 <= i < j < |rows| ==> rows[j].seqNo < rows[i].seqNo
  }

  lemma {:induction false} MatchingFalls(byId: map<ID, Record>, ids: seq<ID>, q: Query)
    requires (forall i :: 0 <= i < |ids| ==> ids[i] in byId) && Backwards(byId, ids) && Whole(q.ref)
    ensures Falling(RowsAt(byId, Matching(byId, ids, q)))
  {
    if ids != [] {
      var init := Init(ids);
      assert forall i :: 0 <= i < |init| ==> init[i] == ids[i];
      BackwardsInit(byId, ids);
      MatchingFalls(byId, init, q);
      if Matches(byId[Last(ids)], q) {
        LastFalls(byId, ids, q, Matching(byId, init, q));
      }
    }
  }

  lemma LastFalls(byId: map<ID, Record>, ids: seq<ID>, q: Query, before: seq<ID>)
    requires ids != [] && (forall i :: 0 <= i < |ids| ==> ids[i] in byId) && Whole(q.ref) && Matches(byId[Last(ids)], q)
    requires (forall i :: 0 <= i < |Init(ids)| ==> Init(ids)[i] in byId) && before == Matching(byId, Init(ids), q)
    requires forall id :: id in Init(ids) ==> Follows(byId, Last(ids), id)
    ensures forall i :: 0 <= i < |before| ==> byId[Last(ids)].seqNo < byId[before[i]].seqNo
  {
    forall i | 0 <= i < |before| ensures byId[Last(ids)].seqNo < byId[before[i]].seqNo {
      MatchingListed(byId, Init(ids), q, before[i]);
      assert Follows(byId, Last(ids), before[i]);
    }
  }

  /** All rows of a Ref, or all older than the cursor's, newest first. */
  ghost predicate Behind(db: Db, ref: Ref, after: Option<ID>, rows: seq<Record>) {
    && Falling(rows)
    && forall r :: r in rows <==> Row(db, ref, r) && (after.Some? && after.value in db.byId ==> r.seqNo < db.byId[after.value].seqNo)
  }

  /** The rows a page newest first is cut from. */
  function RowsBehind(db: Db, ref: Ref, after: Option<ID>): seq<Record>
    requires forall i :: 0 <= i < |db.order| ==> db.order[i] in db.byId
    requires StartOf(Walk(db.order, true), after) <= |db.order|
  {
    RowsAt(db.byId, Matching(db.byId, Walk(db.order, true)[StartOf(Walk(db.order, true), after)..], NewestFirst(ref, after)))
  }

  /** An id stands behind the cursor exactly when its row is the older, both being of one Ref. */
  lemma BehindTheCursor(byId: map<ID, Record>, ids: seq<ID>, k: nat, id: ID)
    requires (forall i :: 0 <= i < |ids| ==> ids[i] in byId) && Backwards(byId, ids) && 0 < k <= |ids|
    requires id in ids && byId[id].ref == byId[ids[k - 1]].ref
    ensures id in ids[k..] <==> byId[id].seqNo < byId[ids[k - 1]].seqNo
  {
    var j :| 0 <= j < |ids| && ids[j] == id;
    if id in ids[k..] {
      var i :| 0 <= i < |ids| - k && ids[k..][i] == id;
      assert Follows(byId, ids[k + i], ids[k - 1]);
    }
    if j >= k {
      assert ids[k..][j - k] == id;
    } else if j < k - 1 {
      assert Follows(byId, ids[k - 1], ids[j]);
    }
  }

  lemma RowsBehindAre(db: Db, ref: Ref, after: Option<ID>)
    requires Readable(db) && Whole(ref) && StartOf(Walk(db.order, true), after) <= |db.order|
    requires after.Some? ==> after.value in db.byId && db.byId[after.value].ref == ref
    ensures Behind(db, ref, after, RowsBehind(db, ref, after))
  {
    var ids, q := Walk(db.order, true), NewestFirst(ref, after);
    var k := StartOf(ids, after);
    ReversedIsBackwards(db.byId, db.order);
    BackwardsFrom(db.byId, ids, k);
    MatchingFalls(db.byId, ids[k..], q);
    forall r ensures r in RowsBehind(db, ref, after)
                <==> Row(db, ref, r) && (after.Some? && after.value in db.byId ==> r.seqNo < db.byId[after.value].seqNo)
    {
      RowIsBehindIff(db, ref, after, r);
    }
  }

  lemma MatchedRow(db: Db, ref: Ref, after: Option<ID>, walk: seq<ID>, r: Record)
    requires Readable(db) && Whole(ref) && forall i :: 0 <= i < |walk| ==> walk[i] in db.byId
    ensures r in RowsAt(db.byId, Matching(db.byId, walk, NewestFirst(ref, after))) <==> Row(db, ref, r) && r.id in walk
  {
    RowIsMatched(db.byId, Matching(db.byId, walk, NewestFirst(ref, after)), r);
    MatchingListed(db.byId, walk, NewestFirst(ref, after), r.id);
  }

  lemma RowIsBehindIff(db: Db, ref: Ref, after: Option<ID>, r: Record)
    requires Readable(db) && Whole(ref) && StartOf(Walk(db.order, true), after) <= |db.order|
    requires after.Some? ==> after.value in db.byId && db.byId[after.value].ref == ref
    ensures r in RowsBehind(db, ref, after)
       <==> Row(db, ref, r) && (after.Some? && after.value in db.byId ==> r.seqNo < db.byId[after.value].seqNo)
  {
    var ids := Walk(db.order, true);
    var k := StartOf(ids, after);
    assert Row(db, ref, r) ==> r.id in ids;
    MatchedRow(db, ref, after, ids[k..], r);
    if Row(db, ref, r) {
      WalkedIff(db, ids, after, r.id);
    }
  }

  lemma WalkedIff(db: Db, ids: seq<ID>, after: Option<ID>, id: ID)
    requires Readable(db) && ids == Reversed(db.order) && StartOf(ids, after) <= |ids| && id in ids
    requires after.Some? ==> after.value in db.byId && id in db.byId && db.byId[after.value].ref == db.byId[id].ref
    ensures id in ids[StartOf(ids, after)..] <==> after.None? || db.byId[id].seqNo < db.byId[after.value].seqNo
  {
    if after.None? {
      assert ids[0..] == ids;
    } else {
      ReversedIsBackwards(db.byId, db.order);
      BehindTheCursor(db.byId, ids, StartOf(ids, after), id);
    }
  }

  lemma RowIsMatched(byId: map<ID, Record>, ids: seq<ID>, r: Record)
    requires forall i :: 0 <= i < |ids| ==> ids[i] in byId && byId[ids[i]].id == ids[i]
    ensures r in RowsAt(byId, ids) <==> r.id in ids && byId[r.id] == r
  {
    if r in RowsAt(byId, ids) {
      var i :| 0 <= i < |ids| && RowsAt(byId, ids)[i] == r;
      assert ids[i] in ids;
    }
    if r.id in ids && byId[r.id] == r {
      var i :| 0 <= i < |ids| && ids[i] == r.id;
      assert RowsAt(byId, ids)[i] == r;
    }
  }

  // ---- The stores a walk reads ----

  /** A record both stores hold has one Ref and one number. */
  ghost predicate SamePlace(a: Db, b: Db, id: ID) {
    id in a.byId && id in b.byId ==> a.byId[id].ref == b.byId[id].ref && a.byId[id].seqNo == b.byId[id].seqNo
  }

  /** What a store holds that one before it did not hold is newer than all that was there until then. */
  ghost predicate ComesLater(first: Db, before: Db, db: Db, ref: Ref) {
    forall r, x :: Row(first, ref, r) && Row(db, ref, x) && x.id !in before.byId ==> r.seqNo < x.seqNo
  }

  /** The stores the pages of one walk are read from. */
  ghost predicate Steady(stores: nat -> Db, ref: Ref) {
    && (forall k {:trigger Readable(stores(k))} :: Readable(stores(k)))
    && (forall j, k, id :: SamePlace(stores(j), stores(k), id))
    && (forall i, j, k {:trigger ComesLater(stores(i), stores(j), stores(k), ref)} :: i <= j <= k ==> ComesLater(stores(i), stores(j), stores(k), ref))
  }

  ghost predicate Newest(db: Db, ref: Ref, n: int) {
    HasNumber(db, ref, n) && forall r :: Row(db, ref, r) ==> r.seqNo <= n
  }

  ghost predicate HasNumber(db: Db, ref: Ref, n: int) {
    exists r :: Row(db, ref, r) && r.seqNo == n
  }

  /** Of the rows above `down` that a store holds, none was missed, those newer than all that was read aside. */
  ghost predicate NoneMissed(db: Db, ref: Ref, seen: seq<int>, down: int) {
    forall r :: Row(db, ref, r) && down < r.seqNo ==> r.seqNo in seen || (seen != [] && r.seqNo > seen[0])
  }

  /** What was not missed in one store was not missed in the next. */
  lemma StillNoneMissed(before: Db, db: Db, first: Db, ref: Ref, seen: seq<int>, down: int)
    requires seen != [] && NoneMissed(before, ref, seen, down) && HasNumber(first, ref, seen[0])
    requires Readable(before) && (forall id :: SamePlace(before, db, id)) && ComesLater(first, before, db, ref)
    ensures NoneMissed(db, ref, seen, down)
  {
    var top :| Row(first, ref, top) && top.seqNo == seen[0];
    forall x | Row(db, ref, x) && down < x.seqNo ensures x.seqNo in seen || x.seqNo > seen[0] {
      if x.id in before.byId {
        assert SamePlace(before, db, x.id);
        assert Row(before, ref, before.byId[x.id]);
      }
    }
  }

  // ---- The walk ----

  datatype Answer = Found(record: Record) | NoSuchDeploy | TooFarBack | StoreFailed | CursorGone
  datatype Step = Answered(answer: Answer) | GoOn(next: ID, scanned: nat)

  /** Numbers read, newest first, none down to the one looked for. */
  ghost predicate Descends(seen: seq<int>, target: int) {
    && (forall i, j :: 0 <= i < j < |seen| ==> seen[j] < seen[i])
    && forall i :: 0 <= i < |seen| ==> seen[i] > target
  }

  /** Each number read is that of a row the store held when its page was read. */
  ghost predicate ReadWhereHeld(stores: nat -> Db, ref: Ref, seen: seq<int>) {
    forall i :: 0 <= i < |seen| ==> HeldWhenRead(stores, ref, seen, i)
  }

  ghost predicate HeldWhenRead(stores: nat -> Db, ref: Ref, seen: seq<int>, i: nat)
    requires i < |seen|
  {
    HasNumber(stores(i / ROLLBACK_PAGE), ref, seen[i])
  }

  /** What was read before and on a page, none before it having failed. */
  ghost predicate ReadSoFar(stores: nat -> Db, fails: nat -> bool, ref: Ref, target: int, pages: nat, seen: seq<int>) {
    && Descends(seen, target) && ReadWhereHeld(stores, ref, seen) && (seen != [] ==> Newest(stores(0), ref, seen[0]))
    && |seen| >= pages * ROLLBACK_PAGE && forall k :: 0 <= k < pages ==> !fails(k)
  }

  /** The last number read before a page. */
  ghost predicate CursorHeld(db: Db, ref: Ref, pages: nat, seen: seq<int>) {
    0 < pages * ROLLBACK_PAGE <= |seen| ==> HasNumber(db, ref, seen[pages * ROLLBACK_PAGE - 1])
  }

  /** All rows were read but those newer than all that was. */
  ghost predicate ReadToTheEnd(db: Db, ref: Ref, seen: seq<int>) {
    forall r :: Row(db, ref, r) ==> r.seqNo in seen || (seen != [] && r.seqNo > seen[0])
  }

  /** What an answer says of the store the last page was read from. */
  ghost predicate Answers(stores: nat -> Db, fails: nat -> bool, ref: Ref, target: int, answer: Answer, pages: nat, seen: seq<int>) {
    && 1 <= pages <= MAX_ROLLBACK_SCAN / ROLLBACK_PAGE && |seen| <= pages * ROLLBACK_PAGE
    && ReadSoFar(stores, fails, ref, target, pages - 1, seen)
    && (answer.StoreFailed? <==> fails(pages - 1))
    && (answer.CursorGone? <==> !fails(pages - 1) && !CursorHeld(stores(pages - 1), ref, pages - 1, seen))
    && AnswerIs(stores(pages - 1), ref, target, answer, pages, seen)
  }

  ghost predicate AnswerIs(db: Db, ref: Ref, target: int, answer: Answer, pages: nat, seen: seq<int>) {
    match answer
    case Found(r) =>
      Row(db, ref, r) && r.seqNo == target && |seen| < MAX_ROLLBACK_SCAN && NoneMissed(db, ref, seen, target)
    case NoSuchDeploy =>
      && !HasNumber(db, ref, target) && NoneMissed(db, ref, seen, target)
      && (|seen| < MAX_ROLLBACK_SCAN || ReadToTheEnd(db, ref, seen))
    case TooFarBack =>
      |seen| == MAX_ROLLBACK_SCAN && exists r :: Row(db, ref, r) && r.seqNo < Last(seen)
    case StoreFailed => |seen| == (pages - 1) * ROLLBACK_PAGE
    case CursorGone => |seen| == (pages - 1) * ROLLBACK_PAGE
  }

  /** What comes of holding the records of a page against the target, newest first. */
  ghost predicate Scanned(records: seq<Record>, target: int, hit: Option<Answer>, at: nat) {
    && at <= |records| && (forall k :: 0 <= k < at ==> records[k].seqNo > target)
    && if at == |records| then hit.None?
       else if records[at].seqNo == target then hit == Some(Found(records[at]))
       else records[at].seqNo < target && hit == Some(NoSuchDeploy)
  }

  /** One page against the target: the record, an older one, or only newer ones. */
  method ScanPage(records: seq<Record>, target: int) returns (hit: Option<Answer>, ghost at: nat)
    ensures Scanned(records, target, hit, at)
  {
    at := 0;
    for i := 0 to |records|
      invariant at == i && forall k :: 0 <= k < i ==> records[k].seqNo > target
    {
      if records[i].seqNo == target {
        return Some(Found(records[i])), at;
      }
      if records[i].seqNo < target {
        return Some(NoSuchDeploy), at;
      }
      at := at + 1;
    }
    return None, at;
  }

  function Numbers(rows: seq<Record>): (ns: seq<int>)
    ensures |ns| == |rows| && forall i :: 0 <= i < |rows| ==> ns[i] == rows[i].seqNo
  {
    seq(|rows|, i requires 0 <= i < |rows| => rows[i].seqNo)
  }

  /** Where the walk stands before a page: the cursor is the last record read, and nothing was missed down to it. */
  ghost predicate Standing(stores: nat -> Db, fails: nat -> bool, ref: Ref, target: int, after: Option<ID>, pages: nat, seen: seq<int>) {
    && ReadSoFar(stores, fails, ref, target, pages, seen) && |seen| == pages * ROLLBACK_PAGE < MAX_ROLLBACK_SCAN
    && (after.None? <==> pages == 0)
    && (pages > 0 ==> CursorAt(stores(pages - 1), ref, after.value, seen))
  }

  ghost predicate CursorAt(db: Db, ref: Ref, id: ID, seen: seq<int>)
    requires seen != []
  {
    id in db.byId && db.byId[id].ref == ref && db.byId[id].seqNo == Last(seen) && NoneMissed(db, ref, seen, Last(seen) - 1)
  }

  /** The rows still to be read: whatever else a store holds was read, or is newer than all that was. */
  ghost predicate Remaining(db: Db, ref: Ref, seen: seq<int>, rows: seq<Record>) {
    && Falling(rows) && (forall r :: r in rows ==> Row(db, ref, r))
    && (seen != [] ==> HasNumber(db, ref, Last(seen)) && forall i :: 0 <= i < |rows| ==> rows[i].seqNo < Last(seen))
    && forall r :: Row(db, ref, r) ==> r in rows || r.seqNo in seen || (seen != [] && r.seqNo > seen[0])
  }

  lemma WalkReaches(order: seq<ID>, after: ID)
    ensures StartOf(Walk(order, true), Some(after)) <= |order| <==> after in order
  {
    var ids := Walk(order, true);
    var at := IndexIn(ids, after);
    assert at < |ids| ==> ids[at] in order;
    if after in order {
      assert after in ids;
    }
  }

  lemma ListedIff(db: Db, id: ID)
    requires Readable(db)
    ensures id in db.order <==> id in db.byId
  {
  }

  lemma CursorIsListed(db: Db, after: ID)
    requires Readable(db)
    ensures StartOf(Walk(db.order, true), Some(after)) <= |db.order| <==> after in db.byId
  {
    WalkReaches(db.order, after);
    ListedIff(db, after);
  }

  /** A page after a cursor is refused exactly when the store holds its record no more. */
  lemma PrunedCursorIsRefused(db: Db, ref: Ref, after: ID)
    requires Readable(db)
    ensures HistoryOf(db, NewestFirst(ref, Some(after))).None? <==> after !in db.byId
  {
    CursorIsListed(db, after);
  }

  lemma PageRemains(stores: nat -> Db, fails: nat -> bool, ref: Ref, target: int, after: Option<ID>, pages: nat, seen: seq<int>)
    requires Steady(stores, ref) && Whole(ref) && Standing(stores, fails, ref, target, after, pages, seen) && Readable(stores(pages))
    requires StartOf(Walk(stores(pages).order, true), after) <= |stores(pages).order|
    ensures Remaining(stores(pages), ref, seen, RowsBehind(stores(pages), ref, after))
  {
    var db := stores(pages);
    if pages == 0 {
      RowsBehindAre(db, ref, after);
    } else {
      var before := stores(pages - 1);
      CursorIsListed(db, after.value);
      assert SamePlace(before, db, after.value) && ComesLater(stores(0), before, db, ref);
      RowsBehindAre(db, ref, after);
      StillNoneMissed(before, db, stores(0), ref, seen, Last(seen) - 1);
      RestRemains(db, ref, after, seen, RowsBehind(db, ref, after));
    }
  }

  lemma RestRemains(db: Db, ref: Ref, after: Option<ID>, seen: seq<int>, rows: seq<Record>)
    requires Readable(db) && Behind(db, ref, after, rows) && seen != [] && NoneMissed(db, ref, seen, Last(seen) - 1)
    requires after.Some? && after.value in db.byId && db.byId[after.value].ref == ref && db.byId[after.value].seqNo == Last(seen)
    ensures Remaining(db, ref, seen, rows)
  {
    assert Row(db, ref, db.byId[after.value]);
    forall i | 0 <= i < |rows| ensures rows[i].seqNo < Last(seen) {
      assert rows[i] in rows;
    }
  }

  /** Reading on: the numbers read still descend. */
  lemma StillDescends(target: int, seen: seq<int>, rows: seq<Record>, ns: seq<int>)
    requires Falling(rows) && Descends(seen, target) && |ns| <= |rows|
    requires forall k :: 0 <= k < |ns| ==> ns[k] == rows[k].seqNo > target
    requires seen != [] ==> forall i :: 0 <= i < |rows| ==> rows[i].seqNo < Last(seen)
    ensures Descends(seen + ns, target)
  {
    var read := seen + ns;
    forall i, j | 0 <= i < j < |read| ensures read[j] < read[i] {
      if i < |seen| <= j {
        assert read[j] == rows[j - |seen|].seqNo;
      }
    }
  }

  /** Nothing was missed down to where reading stopped. */
  lemma ReadsOn(db: Db, ref: Ref, seen: seq<int>, rows: seq<Record>, ns: seq<int>, read: seq<int>, down: int)
    requires Remaining(db, ref, seen, rows) && |ns| <= |rows| && read == seen + ns
    requires forall k :: 0 <= k < |ns| ==> ns[k] == rows[k].seqNo
    requires |ns| < |rows| ==> rows[|ns|].seqNo <= down
    ensures NoneMissed(db, ref, read, down)
  {
    assert seen != [] ==> read[0] == seen[0];
    assert forall n :: n in seen ==> n in read;
    forall r | Row(db, ref, r) && down < r.seqNo ensures r.seqNo in read || (read != [] && r.seqNo > read[0]) {
      if r in rows {
        NumberIsRead(rows, ns, r, down);
      }
    }
  }

  lemma NumberIsRead(rows: seq<Record>, ns: seq<int>, r: Record, down: int)
    requires Falling(rows) && |ns| <= |rows| && r in rows && down < r.seqNo
    requires forall k :: 0 <= k < |ns| ==> ns[k] == rows[k].seqNo
    requires |ns| < |rows| ==> rows[|ns|].seqNo <= down
    ensures r.seqNo in ns
  {
    var i :| 0 <= i < |rows| && rows[i] == r;
    assert i < |ns| ==> ns[i] in ns;
  }

  /** The first number of all is the newest there was when reading began. */
  lemma FirstIsNewest(db: Db, ref: Ref, rows: seq<Record>)
    requires Remaining(db, ref, [], rows) && rows != []
    ensures Newest(db, ref, rows[0].seqNo)
  {
    assert rows[0] in rows;
  }

  lemma PageWasHeld(stores: nat -> Db, ref: Ref, pages: nat, seen: seq<int>, rows: seq<Record>, ns: seq<int>)
    requires ReadWhereHeld(stores, ref, seen) && |seen| == pages * ROLLBACK_PAGE
    requires |ns| <= |rows| && |ns| <= ROLLBACK_PAGE && forall k :: 0 <= k < |ns| ==> ns[k] == rows[k].seqNo
    requires forall r :: r in rows ==> Row(stores(pages), ref, r)
    ensures ReadWhereHeld(stores, ref, seen + ns)
  {
    var read := seen + ns;
    forall i | 0 <= i < |read| ensures HeldWhenRead(stores, ref, read, i) {
      if i >= |seen| {
        assert i / ROLLBACK_PAGE == pages && rows[i - |seen|] in rows;
      } else {
        assert HeldWhenRead(stores, ref, seen, i);
      }
    }
  }

  lemma KeepsReading(stores: nat -> Db, fails: nat -> bool, ref: Ref, target: int, after: Option<ID>, pages: nat, seen: seq<int>,
                     rows: seq<Record>, at: nat, down: int)
    requires Standing(stores, fails, ref, target, after, pages, seen) && Remaining(stores(pages), ref, seen, rows)
    requires at <= |rows| && at <= ROLLBACK_PAGE && forall k :: 0 <= k < at ==> rows[k].seqNo > target
    requires at < |rows| ==> rows[at].seqNo <= down
    ensures ReadSoFar(stores, fails, ref, target, pages, seen + Numbers(rows[..at]))
    ensures NoneMissed(stores(pages), ref, seen + Numbers(rows[..at]), down)
  {
    var ns := Numbers(rows[..at]);
    StillDescends(target, seen, rows, ns);
    ReadsOn(stores(pages), ref, seen, rows, ns, seen + ns, down);
    PageWasHeld(stores, ref, pages, seen, rows, ns);
    if pages == 0 && at > 0 {
      FirstIsNewest(stores(0), ref, rows);
    }
  }

  lemma RestIsRead(db: Db, ref: Ref, seen: seq<int>, rows: seq<Record>, ns: seq<int>, read: seq<int>)
    requires Remaining(db, ref, seen, rows) && |ns| == |rows| && read == seen + ns
    requires forall k :: 0 <= k < |ns| ==> ns[k] == rows[k].seqNo
    ensures ReadToTheEnd(db, ref, read)
  {
    forall r | Row(db, ref, r) ensures r.seqNo in read || (read != [] && r.seqNo > read[0]) {
      ReadsOn(db, ref, seen, rows, ns, read, r.seqNo - 1);
    }
  }

  /** The number looked for is nowhere when reading stopped at an older record or at the end. */
  lemma NumberIsNowhere(db: Db, ref: Ref, target: int, seen: seq<int>, rows: seq<Record>, at: nat)
    requires Remaining(db, ref, seen, rows) && Descends(seen, target) && at <= |rows|
    requires forall k :: 0 <= k < at ==> rows[k].seqNo > target
    requires at < |rows| ==> rows[at].seqNo < target
    ensures !HasNumber(db, ref, target)
  {
    forall r | Row(db, ref, r) ensures r.seqNo != target {
      if r in rows {
        var i :| 0 <= i < |rows| && rows[i] == r;
      }
    }
  }

  /**
   The deploy with a number, looked for a page at a time while the store changes
   between pages: every answer is one the last page's store bears out.
   */
  method RecordBySeq(stores: nat -> Db, fails: nat -> bool, ref: Ref, target: int)
    returns (answer: Answer, pages: nat, ghost seen: seq<int>)
    requires Steady(stores, ref) && Whole(ref)
    ensures Answers(stores, fails, ref, target, answer, pages, seen)
  {
    var after: Option<ID>, scanned := None, 0;
    pages, seen := 0, [];
    while true
      invariant Standing(stores, fails, ref, target, after, pages, seen) && scanned == |seen|
      decreases MAX_ROLLBACK_SCAN - scanned
    {
      var step;
      step, seen := NextPage(stores, fails, ref, target, after, pages, scanned, seen);
      pages := pages + 1;
      if step.Answered? {
        return step.answer, pages, seen;
      }
      after, scanned := Some(step.next), step.scanned;
    }
  }

  /** A round of the walk gives an answer that holds, or a place to go on from. */
  method NextPage(stores: nat -> Db, fails: nat -> bool, ref: Ref, target: int, after: Option<ID>, pages: nat, scanned: nat,
                  ghost seen: seq<int>)
    returns (step: Step, ghost read: seq<int>)
    requires Steady(stores, ref) && Whole(ref) && Standing(stores, fails, ref, target, after, pages, seen) && scanned == |seen|
    ensures step.Answered? ==> Answers(stores, fails, ref, target, step.answer, pages + 1, read)
    ensures step.GoOn? ==>
              Standing(stores, fails, ref, target, Some(step.next), pages + 1, read) && scanned < step.scanned == |read|
  {
    assert Readable(stores(pages));
    step := OnePage(stores(pages), fails(pages), ref, target, after, scanned);
    read := Leads(stores, fails, ref, target, after, pages, seen, step);
  }

  method OnePage(db: Db, fails: bool, ref: Ref, target: int, after: Option<ID>, scanned: nat) returns (step: Step)
    requires Readable(db)
    ensures if fails then step == Answered(StoreFailed) else Stepped(HistoryOf(db, NewestFirst(ref, after)), target, scanned, step)
  {
    if fails {
      return Answered(StoreFailed);
    }
    var page := HistoryOf(db, NewestFirst(ref, after));
    if page.None? {
      return Answered(CursorGone);
    }
    step := Judge(page.value, target, scanned);
  }

  method Judge(page: Page, target: int, scanned: nat) returns (step: Step)
    ensures Stepped(Some(page), target, scanned, step)
  {
    var records := page.records;
    ghost var at := 0;
    if |records| == 0 {
      assert Scanned(records, target, None, at);
      return Answered(NoSuchDeploy);
    }
    var hit: Option<Answer>;
    hit, at := ScanPage(records, target);
    if hit.Some? {
      return Answered(hit.value);
    }
    if page.next.None? {
      return Answered(NoSuchDeploy);
    }
    return if scanned + |records| >= MAX_ROLLBACK_SCAN then Answered(TooFarBack)
           else GoOn(page.next.value, scanned + |records|);
  }

  /** What a round does, given the page it reads. */
  ghost predicate Stepped(page: Option<Page>, target: int, scanned: nat, step: Step) {
    if page.None? then step == Answered(CursorGone)
    else exists hit, at: nat :: Scanned(page.value.records, target, hit, at) && StepIs(page.value, hit, scanned, step)
  }

  predicate StepIs(page: Page, hit: Option<Answer>, scanned: nat, step: Step) {
    var now := scanned + |page.records|;
    if hit.Some? then step == Answered(hit.value)
    else if page.next.None? || page.records == [] then step == Answered(NoSuchDeploy)
    else if now >= MAX_ROLLBACK_SCAN then step == Answered(TooFarBack)
    else step == GoOn(page.next.value, now)
  }

  /** So a round gives an answer that holds, or leads to where the walk stands next. */
  lemma Leads(stores: nat -> Db, fails: nat -> bool, ref: Ref, target: int, after: Option<ID>, pages: nat, seen: seq<int>, step: Step)
    returns (read: seq<int>)
    requires Steady(stores, ref) && Whole(ref) && Standing(stores, fails, ref, target, after, pages, seen) && Readable(stores(pages))
    requires if fails(pages) then step == Answered(StoreFailed)
             else Stepped(HistoryOf(stores(pages), NewestFirst(ref, after)), target, |seen|, step)
    ensures step.Answered? ==> Answers(stores, fails, ref, target, step.answer, pages + 1, read)
    ensures step.GoOn? ==>
              Standing(stores, fails, ref, target, Some(step.next), pages + 1, read) && |seen| < |read| == step.scanned
  {
    if fails(pages) {
      return seen;
    }
    var page := HistoryOf(stores(pages), NewestFirst(ref, after));
    if page.None? {
      RefusedForItsCursor(stores(pages), ref, after);
      CursorIsGone(stores, fails, ref, target, after, pages, seen);
      return seen;
    }
    var rows := ReadPage(stores, fails, ref, target, after, pages, seen, page.value);
    read := LeadsFrom(stores, fails, ref, target, after, pages, seen, rows, page.value, step);
  }

  lemma LeadsFrom(stores: nat -> Db, fails: nat -> bool, ref: Ref, target: int, after: Option<ID>, pages: nat, seen: seq<int>,
                  rows: seq<Record>, page: Page, step: Step)
    returns (read: seq<int>)
    requires Standing(stores, fails, ref, target, after, pages, seen) && Remaining(stores(pages), ref, seen, rows) && !fails(pages)
    requires Holds(rows, page) && Stepped(Some(page), target, |seen|, step)
    ensures step.Answered? ==> Answers(stores, fails, ref, target, step.answer, pages + 1, read)
    ensures step.GoOn? ==>
              Standing(stores, fails, ref, target, Some(step.next), pages + 1, read) && |seen| < |read| == step.scanned
  {
    var hit: Option<Answer>, at: nat :| Scanned(page.records, target, hit, at) && StepIs(page, hit, |seen|, step);
    Ends(stores, fails, ref, target, after, pages, seen, rows, page, hit, at);
    read := seen + Numbers(rows[..at]);
  }

  /** What comes of a page: an answer that holds, or a cursor to go on from. */
  lemma Ends(stores: nat -> Db, fails: nat -> bool, ref: Ref, target: int, after: Option<ID>, pages: nat, seen: seq<int>,
             rows: seq<Record>, page: Page, hit: Option<Answer>, at: nat)
    requires Standing(stores, fails, ref, target, after, pages, seen) && Remaining(stores(pages), ref, seen, rows) && !fails(pages)
    requires Holds(rows, page) && Scanned(page.records, target, hit, at)
    ensures hit.Some? ==> Answers(stores, fails, ref, target, hit.value, pages + 1, seen + Numbers(rows[..at]))
    ensures hit.None? && page.next.None? ==> Answers(stores, fails, ref, target, NoSuchDeploy, pages + 1, seen + Numbers(rows[..at]))
    ensures hit.None? && page.next.Some? ==> CarriesOn(stores, fails, ref, target, page.next, pages + 1, seen + Numbers(rows[..at]))
    ensures hit.None? ==> |seen + Numbers(rows[..at])| == |seen| + |page.records|
  {
    if hit.Some? || page.next.None? {
      EndsThere(stores, fails, ref, target, after, pages, seen, rows, at);
    } else {
      GoesOn(stores, fails, ref, target, after, pages, seen, rows);
    }
  }

  ghost predicate CarriesOn(stores: nat -> Db, fails: nat -> bool, ref: Ref, target: int, after: Option<ID>, pages: nat, seen: seq<int>) {
    if |seen| >= MAX_ROLLBACK_SCAN then Answers(stores, fails, ref, target, TooFarBack, pages, seen)
    else Standing(stores, fails, ref, target, after, pages, seen)
  }

  lemma RefusedForItsCursor(db: Db, ref: Ref, after: Option<ID>)
    requires Readable(db) && HistoryOf(db, NewestFirst(ref, after)).None?
    ensures after.Some? && after.value !in db.byId
  {
    if after.Some? {
      PrunedCursorIsRefused(db, ref, after.value);
    }
  }

  /** The cursor was pruned: the page is refused. */
  lemma CursorIsGone(stores: nat -> Db, fails: nat -> bool, ref: Ref, target: int, after: Option<ID>, pages: nat, seen: seq<int>)
    requires Steady(stores, ref) && Readable(stores(pages)) && Standing(stores, fails, ref, target, after, pages, seen) && !fails(pages)
    requires after.Some? && after.value !in stores(pages).byId
    ensures Answers(stores, fails, ref, target, CursorGone, pages + 1, seen)
  {
    CursorsNumberIsGone(stores, ref, pages, seen, after.value);
  }

  lemma CursorsNumberIsGone(stores: nat -> Db, ref: Ref, pages: nat, seen: seq<int>, id: ID)
    requires Steady(stores, ref) && pages > 0 && seen != [] && CursorAt(stores(pages - 1), ref, id, seen)
    requires id !in stores(pages).byId
    ensures !HasNumber(stores(pages), ref, Last(seen))
  {
    var before, db := stores(pages - 1), stores(pages);
    assert Readable(before) && Readable(db);
    CursorIsARow(before, ref, id, seen);
    assert ComesLater(before, before, db, ref);
    forall x ensures SamePlace(before, db, x) {
      assert SamePlace(stores(pages - 1), stores(pages), x);
    }
    GoneIsGone(before, db, ref, before.byId[id]);
  }

  lemma CursorIsARow(db: Db, ref: Ref, id: ID, seen: seq<int>)
    requires Readable(db) && seen != [] && CursorAt(db, ref, id, seen)
    ensures Row(db, ref, db.byId[id]) && db.byId[id].id == id && db.byId[id].seqNo == Last(seen)
  {
  }

  /** A number is one row's. */
  lemma OneRowPerNumber(db: Db, ref: Ref, r: Record, x: Record)
    requires Readable(db) && Row(db, ref, r) && Row(db, ref, x) && r.seqNo == x.seqNo
    ensures r == x
  {
    var i :| 0 <= i < |db.order| && db.order[i] == r.id;
    var j :| 0 <= j < |db.order| && db.order[j] == x.id;
    assert i < j ==> Follows(db.byId, r.id, x.id);
    assert j < i ==> Follows(db.byId, x.id, r.id);
  }

  /** When a row is gone its number is. */
  lemma GoneIsGone(before: Db, db: Db, ref: Ref, r: Record)
    requires Readable(before) && Readable(db) && Row(before, ref, r) && r.id !in db.byId
    requires ComesLater(before, before, db, ref) && forall id :: SamePlace(before, db, id)
    ensures !HasNumber(db, ref, r.seqNo)
  {
    forall x | Row(db, ref, x) ensures x.seqNo != r.seqNo {
      if x.id in before.byId {
        assert SamePlace(before, db, x.id);
        var y := before.byId[x.id];
        assert y.id == x.id && Row(before, ref, y);
        if y.seqNo == r.seqNo {
          OneRowPerNumber(before, ref, y, r);
        }
      }
    }
  }

  /** A page holds the first of the rows that remain, and leads on exactly when there are more. */
  ghost predicate Holds(rows: seq<Record>, page: Page) {
    && |page.records| <= |rows| && (forall k :: 0 <= k < |page.records| ==> page.records[k] == rows[k])
    && if |rows| <= ROLLBACK_PAGE then |page.records| == |rows| && page.next.None?
       else |page.records| == ROLLBACK_PAGE && page.next == Some(rows[ROLLBACK_PAGE - 1].id)
  }

  lemma ReadPage(stores: nat -> Db, fails: nat -> bool, ref: Ref, target: int, after: Option<ID>, pages: nat, seen: seq<int>, page: Page)
    returns (rows: seq<Record>)
    requires Steady(stores, ref) && Whole(ref) && Standing(stores, fails, ref, target, after, pages, seen) && Readable(stores(pages))
    requires HistoryOf(stores(pages), NewestFirst(ref, after)) == Some(page)
    ensures Remaining(stores(pages), ref, seen, rows) && Holds(rows, page)
  {
    rows := RowsBehindPage(stores(pages), ref, after, page);
    PageRemains(stores, fails, ref, target, after, pages, seen);
  }

  lemma RowsBehindPage(db: Db, ref: Ref, after: Option<ID>, page: Page) returns (rows: seq<Record>)
    requires (forall i :: 0 <= i < |db.order| ==> db.order[i] in db.byId) && HistoryOf(db, NewestFirst(ref, after)) == Some(page)
    ensures StartOf(Walk(db.order, true), after) <= |db.order| && rows == RowsBehind(db, ref, after) && Holds(rows, page)
  {
    rows := RowsBehind(db, ref, after);
    assert page == Cut(rows, ROLLBACK_PAGE);
  }

  /** The walk ends on this page, at the target, at an older record or behind the last one. */
  lemma EndsThere(stores: nat -> Db, fails: nat -> bool, ref: Ref, target: int, after: Option<ID>, pages: nat, seen: seq<int>,
                  rows: seq<Record>, at: nat)
    requires Standing(stores, fails, ref, target, after, pages, seen) && Remaining(stores(pages), ref, seen, rows) && !fails(pages)
    requires at <= |rows| && at <= ROLLBACK_PAGE && (forall k :: 0 <= k < at ==> rows[k].seqNo > target)
    requires at < |rows| ==> at < ROLLBACK_PAGE && rows[at].seqNo <= target
    ensures at < |rows| && rows[at].seqNo == target ==>
              Answers(stores, fails, ref, target, Found(rows[at]), pages + 1, seen + Numbers(rows[..at]))
    ensures !(at < |rows| && rows[at].seqNo == target) ==>
              Answers(stores, fails, ref, target, NoSuchDeploy, pages + 1, seen + Numbers(rows[..at]))
  {
    var ns := Numbers(rows[..at]);
    KeepsReading(stores, fails, ref, target, after, pages, seen, rows, at, target);
    CursorStays(stores(pages), ref, pages, seen, rows, ns);
    if at < |rows| && rows[at].seqNo == target {
      assert rows[at] in rows;
    } else {
      NumberIsNowhere(stores(pages), ref, target, seen, rows, at);
      if at == |rows| {
        RestIsRead(stores(pages), ref, seen, rows, ns, seen + ns);
      }
    }
  }

  lemma CursorStays(db: Db, ref: Ref, pages: nat, seen: seq<int>, rows: seq<Record>, ns: seq<int>)
    requires Remaining(db, ref, seen, rows) && |seen| == pages * ROLLBACK_PAGE
    ensures CursorHeld(db, ref, pages, seen + ns)
  {
  }

  /** A full page of newer records with more behind it. */
  lemma GoesOn(stores: nat -> Db, fails: nat -> bool, ref: Ref, target: int, after: Option<ID>, pages: nat, seen: seq<int>, rows: seq<Record>)
    requires Standing(stores, fails, ref, target, after, pages, seen) && Remaining(stores(pages), ref, seen, rows) && !fails(pages)
    requires |rows| > ROLLBACK_PAGE && forall k :: 0 <= k < ROLLBACK_PAGE ==> rows[k].seqNo > target
    ensures var read := seen + Numbers(rows[..ROLLBACK_PAGE]);
            && |read| == (pages + 1) * ROLLBACK_PAGE && ReadSoFar(stores, fails, ref, target, pages + 1, read)
            && CursorAt(stores(pages), ref, rows[ROLLBACK_PAGE - 1].id, read)
            && exists r :: Row(stores(pages), ref, r) && r.seqNo < Last(read)
  {
    var last, next := rows[ROLLBACK_PAGE - 1], rows[ROLLBACK_PAGE];
    assert last in rows && next in rows;
    KeepsReading(stores, fails, ref, target, after, pages, seen, rows, ROLLBACK_PAGE, last.seqNo - 1);
    assert Last(Numbers(rows[..ROLLBACK_PAGE])) == last.seqNo;
  }

  // ---- The stores of a run ----

  /** The record a Ref's log holds at a place. */
  ghost predicate Entered(log: map<Ref, seq<Record>>, ref: Ref, i: nat, id: ID) {
    i < |LogOf(log, ref)| && LogOf(log, ref)[i].id == id
  }

  /** No two records were ever given one id. */
  ghost predicate NoIdTwice(log: map<Ref, seq<Record>>) {
    forall ref, ref', i: nat, j: nat, id :: Entered(log, ref, i, id) && Entered(log, ref', j, id) ==> ref == ref' && i == j
  }

  /** Appended after a log had come so far. */
  ghost predicate NewSince(log: map<Ref, seq<Record>>, later: map<Ref, seq<Record>>, id: ID) {
    exists ref, i: nat :: |LogOf(log, ref)| <= i && Entered(later, ref, i, id)
  }

  lemma {:induction false} LogsOnlyGrow(h: Hasher, a: seq<Action>, b: seq<Action>, ref: Ref)
    requires a <= b
    ensures LogOf(Told(h, a).log, ref) <= LogOf(Told(h, b).log, ref)
  {
    if a != b {
      assert a <= Init(b);
      LogsOnlyGrow(h, a, Init(b), ref);
    }
  }

  lemma ActHolds(h: Hasher, c: Chronicle, a: Action, id: ID)
    requires Indexed(c.db) && id in Act(h, c, a).db.byId && id !in c.db.byId
    ensures NewSince(c.log, Act(h, c, a).log, id)
  {
    match a
    case Write(Append(d, nanos, now)) =>
      assert Entered(Act(h, c, a).log, d.ref, |LogOf(c.log, d.ref)|, id);
    case Write(Move(_, _, _)) =>
    case Prune(cutoff, current) => PruneLeaves(c.db, cutoff, current, id);
  }

  lemma NewIsStillNew(h: Hasher, a: seq<Action>, b: seq<Action>, c: seq<Action>, id: ID)
    requires a <= b <= c && NewSince(Told(h, b).log, Told(h, c).log, id)
    ensures NewSince(Told(h, a).log, Told(h, c).log, id)
  {
    var ref, i: nat :| |LogOf(Told(h, b).log, ref)| <= i && Entered(Told(h, c).log, ref, i, id);
    LogsOnlyGrow(h, a, b, ref);
  }

  /** A row a run holds was held at an earlier moment or was appended after it. */
  lemma {:induction false} HeldOrNew(h: Hasher, a: seq<Action>, b: seq<Action>, id: ID)
    requires a <= b && id in Told(h, b).db.byId
    ensures id in Told(h, a).db.byId || NewSince(Told(h, a).log, Told(h, b).log, id)
  {
    if a != b {
      var b' := Init(b);
      assert a <= b' <= b;
      if id in Told(h, b').db.byId {
        HeldOrNew(h, a, b', id);
        if NewSince(Told(h, a).log, Told(h, b').log, id) {
          var ref, i: nat :| |LogOf(Told(h, a).log, ref)| <= i && Entered(Told(h, b').log, ref, i, id);
          LogsOnlyGrow(h, b', b, ref);
          assert Entered(Told(h, b).log, ref, i, id);
        }
      } else {
        RunIsSound(h, b');
        ActHolds(h, Told(h, b'), Last(b), id);
        NewIsStillNew(h, a, b', b, id);
      }
    }
  }

  /** A row's place in the log of its Ref, now and later. */
  ghost predicate Placed(db: Db, log: map<Ref, seq<Record>>, id: ID)
    requires id in db.byId
  {
    var r := db.byId[id];
    1 <= r.seqNo && Entered(log, r.ref, r.seqNo - 1, id)
  }

  lemma PlacedInLog(h: Hasher, c: Chronicle, id: ID)
    requires Sound(h, c) && id in c.db.byId
    ensures Placed(c.db, c.log, id)
  {
    assert Rooted(h, c.log, id, c.db.byId[id]);
  }

  lemma PlacedLater(db: Db, log: map<Ref, seq<Record>>, later: map<Ref, seq<Record>>, id: ID)
    requires id in db.byId && Placed(db, log, id)
    requires LogOf(log, db.byId[id].ref) <= LogOf(later, db.byId[id].ref)
    ensures Placed(db, later, id)
  {
  }

  lemma RunPlaces(h: Hasher, a: seq<Action>, id: ID)
    requires id in Told(h, a).db.byId
    ensures Placed(Told(h, a).db, Told(h, a).log, id)
  {
    var c := Told(h, a);
    RunIsSound(h, a);
    PlacedInLog(h, c, id);
  }

  lemma RowIsEntered(h: Hasher, a: seq<Action>, b: seq<Action>, id: ID)
    requires a <= b && id in Told(h, a).db.byId
    ensures Placed(Told(h, a).db, Told(h, b).log, id)
  {
    var c := Told(h, a);
    RunPlaces(h, a, id);
    LogsOnlyGrow(h, a, b, c.db.byId[id].ref);
    PlacedLater(c.db, c.log, Told(h, b).log, id);
  }

  lemma RunKeepsPlaces(h: Hasher, a: seq<Action>, b: seq<Action>, id: ID)
    requires a <= b && NoIdTwice(Told(h, b).log)
    ensures SamePlace(Told(h, a).db, Told(h, b).db, id) && SamePlace(Told(h, b).db, Told(h, a).db, id)
  {
    if id in Told(h, a).db.byId && id in Told(h, b).db.byId {
      RowIsEntered(h, a, b, id);
      RowIsEntered(h, b, b, id);
    }
  }

  lemma RunComesLater(h: Hasher, a: seq<Action>, b: seq<Action>, c: seq<Action>, ref: Ref)
    requires a <= b <= c && NoIdTwice(Told(h, c).log)
    ensures ComesLater(Told(h, a).db, Told(h, b).db, Told(h, c).db, ref)
  {
    forall r, x | Row(Told(h, a).db, ref, r) && Row(Told(h, c).db, ref, x) && x.id !in Told(h, b).db.byId
      ensures r.seqNo < x.seqNo
    {
      RowIsEntered(h, a, a, r.id);
      LogsOnlyGrow(h, a, b, ref);
      RowIsEntered(h, c, c, x.id);
      HeldOrNew(h, b, c, x.id);
      var ref', i: nat :| |LogOf(Told(h, b).log, ref')| <= i && Entered(Told(h, c).log, ref', i, x.id);
      assert ref' == ref && i == x.seqNo - 1;
    }
  }

  /** The store as it stands at the moments a walk reads a page, over any run of appends, transitions and prunes. */
  ghost predicate Along(h: Hasher, runs: nat -> seq<Action>, stores: nat -> Db) {
    && (forall k :: stores(k) == Told(h, runs(k)).db && NoIdTwice(Told(h, runs(k)).log))
    && forall j, k :: j <= k ==> runs(j) <= runs(k)
  }

  lemma RunsAreSteady(h: Hasher, runs: nat -> seq<Action>, stores: nat -> Db, ref: Ref)
    requires Along(h, runs, stores)
    ensures Steady(stores, ref)
  {
    forall k ensures Readable(stores(k)) {
      RunsAreReadable(h, runs(k));
    }
    forall j, k, id ensures SamePlace(stores(j), stores(k), id) {
      if j <= k {
        RunKeepsPlaces(h, runs(j), runs(k), id);
      } else {
        RunKeepsPlaces(h, runs(k), runs(j), id);
      }
    }
    forall i, j, k | i <= j <= k ensures ComesLater(stores(i), stores(j), stores(k), ref) {
      RunComesLater(h, runs(i), runs(j), runs(k), ref);
    }
  }

  // ---- What the answers amount to ----

  /** The numbers a store holds of a Ref. */
  ghost function Held(db: Db, ref: Ref): set<int> {
    set id | id in db.byId && db.byId[id].ref == ref :: db.byId[id].seqNo
  }

  ghost function Above(db: Db, ref: Ref, target: int): set<int> {
    set n | n in Held(db, ref) && n > target
  }

  lemma HeldIff(db: Db, ref: Ref, n: int)
    requires Readable(db)
    ensures n in Held(db, ref) <==> HasNumber(db, ref, n)
  {
    if n in Held(db, ref) {
      var id :| id in db.byId && db.byId[id].ref == ref && db.byId[id].seqNo == n;
      assert Row(db, ref, db.byId[id]);
    }
  }

  /** What was not there at the first page has a number above all that was. */
  lemma OldNumbers(stores: nat -> Db, ref: Ref, k: nat, n: int, top: int)
    requires Steady(stores, ref) && HasNumber(stores(k), ref, n) && HasNumber(stores(0), ref, top) && n <= top
    ensures HasNumber(stores(0), ref, n)
  {
    var t :| Row(stores(0), ref, t) && t.seqNo == top;
    var r :| Row(stores(k), ref, r) && r.seqNo == n;
    assert ComesLater(stores(0), stores(0), stores(k), ref);
    assert SamePlace(stores(0), stores(k), r.id) && Readable(stores(0));
    assert Row(stores(0), ref, stores(0).byId[r.id]);
  }

  ghost function Elements(s: seq<int>): set<int> {
    set n | n in s
  }

  lemma {:induction false} AsManyElements(s: seq<int>)
    requires forall i, j :: 0 <= i < j < |s| ==> s[j] < s[i]
    ensures |Elements(s)| == |s|
  {
    if s == [] {
      assert Elements(s) == {};
    } else {
      AsManyElements(Init(s));
      assert s == Init(s) + [Last(s)];
      assert Elements(s) == Elements(Init(s)) + {Last(s)};
    }
  }

  lemma FewerElements(a: set<int>, b: set<int>)
    requires a <= b
    ensures |a| <= |b|
  {
    assert b == a + (b - a);
  }

  /** Everything read was there when the walk began: distinct deploys, newer than the one looked for. */
  lemma ReadWasThere(stores: nat -> Db, fails: nat -> bool, ref: Ref, target: int, pages: nat, seen: seq<int>)
    requires Steady(stores, ref) && ReadSoFar(stores, fails, ref, target, pages, seen)
    ensures Elements(seen) <= Above(stores(0), ref, target) && |Elements(seen)| == |seen| <= |Above(stores(0), ref, target)|
  {
    AsManyElements(seen);
    assert Readable(stores(0));
    forall n | n in Elements(seen) ensures n in Above(stores(0), ref, target) {
      var i :| 0 <= i < |seen| && seen[i] == n;
      assert HeldWhenRead(stores, ref, seen, i);
      OldNumbers(stores, ref, i / ROLLBACK_PAGE, n, seen[0]);
      HeldIff(stores(0), ref, n);
    }
    FewerElements(Elements(seen), Above(stores(0), ref, target));
  }

  /** Too far back: 2000 deploys newer than it were there when the walk began, so the newest is that far ahead. */
  lemma TooFarBackIsFar(stores: nat -> Db, fails: nat -> bool, ref: Ref, target: int, pages: nat, seen: seq<int>)
    requires Steady(stores, ref) && Answers(stores, fails, ref, target, TooFarBack, pages, seen)
    ensures |Above(stores(0), ref, target)| >= MAX_ROLLBACK_SCAN
    ensures Newest(stores(0), ref, seen[0]) && seen[0] - target >= MAX_ROLLBACK_SCAN
  {
    ReadWasThere(stores, fails, ref, target, pages - 1, seen);
    Distance(seen, target, |seen| - 1);
  }

  lemma {:induction false} Distance(seen: seq<int>, target: int, i: nat)
    requires Descends(seen, target) && i < |seen|
    ensures seen[0] - seen[i] >= i
  {
    if i > 0 {
      Distance(seen, target, i - 1);
    }
  }

  /**
   Whatever else is pruned: a deploy still there at the last page, of which fewer
   than 2000 newer ones were there at the first, is found, short of an error.
   */
  lemma RecentDeploysAreFound(stores: nat -> Db, fails: nat -> bool, ref: Ref, target: int, answer: Answer, pages: nat, seen: seq<int>)
    requires Steady(stores, ref) && Answers(stores, fails, ref, target, answer, pages, seen)
    requires HasNumber(stores(pages - 1), ref, target) && |Above(stores(0), ref, target)| < MAX_ROLLBACK_SCAN
    ensures answer.Found? || answer.StoreFailed? || answer.CursorGone?
  {
    if answer.TooFarBack? {
      TooFarBackIsFar(stores, fails, ref, target, pages, seen);
    }
  }

  /** Of the Ref nothing that was there is pruned while the walk is under way. */
  ghost predicate Kept(stores: nat -> Db, ref: Ref) {
    forall k, n :: HasNumber(stores(0), ref, n) ==> HasNumber(stores(k), ref, n)
  }

  /** When nothing is pruned, what was read down to a number is all there was above it. */
  lemma AllWasRead(stores: nat -> Db, fails: nat -> bool, ref: Ref, target: int, pages: nat, seen: seq<int>)
    requires Steady(stores, ref) && Kept(stores, ref) && ReadSoFar(stores, fails, ref, target, pages, seen)
    requires NoneMissed(stores(pages), ref, seen, target)
    ensures |Above(stores(0), ref, target)| == |seen|
  {
    ReadWasThere(stores, fails, ref, target, pages, seen);
    assert Readable(stores(0));
    forall n | n in Above(stores(0), ref, target) ensures n in Elements(seen) {
      HeldIff(stores(0), ref, n);
      assert HasNumber(stores(pages), ref, n);
    }
    assert Elements(seen) == Above(stores(0), ref, target);
  }

  lemma FoundWasThere(stores: nat -> Db, fails: nat -> bool, ref: Ref, target: int, answer: Answer, pages: nat, seen: seq<int>)
    requires Steady(stores, ref) && Answers(stores, fails, ref, target, answer, pages, seen) && answer.Found?
    ensures HasNumber(stores(0), ref, target)
  {
    assert HasNumber(stores(pages - 1), ref, target);
    if seen != [] {
      OldNumbers(stores, ref, pages - 1, target, seen[0]);
    }
  }

  /** One more than was read is held. */
  lemma MoreIsHeld(stores: nat -> Db, fails: nat -> bool, ref: Ref, target: int, pages: nat, seen: seq<int>)
    requires Steady(stores, ref) && Answers(stores, fails, ref, target, TooFarBack, pages, seen)
    ensures |Held(stores(0), ref)| > MAX_ROLLBACK_SCAN
  {
    ReadWasThere(stores, fails, ref, target, pages - 1, seen);
    var r :| Row(stores(pages - 1), ref, r) && r.seqNo < Last(seen);
    OldNumbers(stores, ref, pages - 1, r.seqNo, seen[0]);
    assert Readable(stores(0));
    HeldIff(stores(0), ref, r.seqNo);
    assert r.seqNo !in Elements(seen);
    FewerElements(Elements(seen) + {r.seqNo}, Held(stores(0), ref));
  }

  lemma NoneIsNeither(stores: nat -> Db, fails: nat -> bool, ref: Ref, target: int, pages: nat, seen: seq<int>)
    requires Steady(stores, ref) && Kept(stores, ref) && Answers(stores, fails, ref, target, NoSuchDeploy, pages, seen)
    ensures !HasNumber(stores(0), ref, target)
    ensures |Above(stores(0), ref, target)| < MAX_ROLLBACK_SCAN || |Held(stores(0), ref)| <= MAX_ROLLBACK_SCAN
  {
    AllWasRead(stores, fails, ref, target, pages - 1, seen);
    if |seen| >= MAX_ROLLBACK_SCAN {
      assert Readable(stores(0));
      forall n | n in Held(stores(0), ref) ensures n in Elements(seen) {
        HeldIff(stores(0), ref, n);
        assert HasNumber(stores(pages - 1), ref, n);
      }
      AsManyElements(seen);
      FewerElements(Held(stores(0), ref), Elements(seen));
    }
  }

  /**
   While nothing is pruned, whatever was pruned before and is appended meanwhile: the
   deploy is found exactly when it was there at the first page with fewer than 2000 newer
   ones, and it is too far back exactly when 2000 newer ones were there and some other one.
   */
  lemma AnswersIff(stores: nat -> Db, fails: nat -> bool, ref: Ref, target: int, answer: Answer, pages: nat, seen: seq<int>)
    requires Steady(stores, ref) && Kept(stores, ref)
    requires Answers(stores, fails, ref, target, answer, pages, seen) && !fails(pages - 1)
    ensures answer.Found? <==> HasNumber(stores(0), ref, target) && |Above(stores(0), ref, target)| < MAX_ROLLBACK_SCAN
    ensures answer.TooFarBack? <==>
            |Above(stores(0), ref, target)| >= MAX_ROLLBACK_SCAN && |Held(stores(0), ref)| > MAX_ROLLBACK_SCAN
    ensures !answer.CursorGone?
  {
    match answer
    case Found(_) =>
      FoundWasThere(stores, fails, ref, target, answer, pages, seen);
      AllWasRead(stores, fails, ref, target, pages - 1, seen);
    case NoSuchDeploy => NoneIsNeither(stores, fails, ref, target, pages, seen);
    case TooFarBack =>
      TooFarBackIsFar(stores, fails, ref, target, pages, seen);
      MoreIsHeld(stores, fails, ref, target, pages, seen);
    case StoreFailed =>
    case CursorGone => NothingIsGone(stores, fails, ref, target, pages, seen);
  }

  lemma NothingIsGone(stores: nat -> Db, fails: nat -> bool, ref: Ref, target: int, pages: nat, seen: seq<int>)
    requires Steady(stores, ref) && Kept(stores, ref) && pages > 0 && ReadSoFar(stores, fails, ref, target, pages - 1, seen)
    ensures CursorHeld(stores(pages - 1), ref, pages - 1, seen)
  {
    var last := (pages - 1) * ROLLBACK_PAGE - 1;
    if last >= 0 {
      assert HeldWhenRead(stores, ref, seen, last);
      OldNumbers(stores, ref, last / ROLLBACK_PAGE, seen[last], seen[0]);
    }
  }

  /** Every number from one to n is a row's, and no other. */
  ghost predicate Gapless(db: Db, ref: Ref, n: nat) {
    forall i :: HasNumber(db, ref, i) <==> 1 <= i <= n
  }

  ghost function Interval(low: int, n: nat): (s: set<int>)
    ensures |s| == n && forall i :: i in s <==> low < i <= low + n
  {
    if n == 0 then {} else Interval(low, n - 1) + {low + n}
  }

  lemma GaplessSize(db: Db, ref: Ref, n: nat, s: set<int>, target: nat)
    requires Readable(db) && Gapless(db, ref, n) && target <= n && s == Above(db, ref, target)
    ensures |s| == n - target
  {
    forall i ensures i in s <==> target < i <= n {
      HeldIff(db, ref, i);
    }
    assert s == Interval(target, n - target);
  }

  lemma GaplessAbove(db: Db, ref: Ref, n: nat, target: int)
    requires Readable(db) && Gapless(db, ref, n)
    ensures |Above(db, ref, target)| == if target <= 0 then n else if target <= n then n - target else 0
    ensures |Held(db, ref)| == n
  {
    forall i ensures i in Held(db, ref) <==> 1 <= i <= n {
      HeldIff(db, ref, i);
    }
    assert Held(db, ref) == Interval(0, n);
    if target <= 0 {
      assert Above(db, ref, target) == Held(db, ref);
    } else if target <= n {
      GaplessSize(db, ref, n, Above(db, ref, target), target);
    } else {
      assert Above(db, ref, target) == {};
    }
  }

  /** So in a log whose numbers run from one to n only they decide. */
  lemma GaplessAnswersIff(stores: nat -> Db, fails: nat -> bool, ref: Ref, target: int, answer: Answer, pages: nat, seen: seq<int>, n: nat)
    requires Steady(stores, ref) && Kept(stores, ref) && Gapless(stores(0), ref, n)
    requires Answers(stores, fails, ref, target, answer, pages, seen) && !fails(pages - 1)
    ensures answer.Found? <==> 1 <= target <= n && n - target < MAX_ROLLBACK_SCAN
    ensures answer.TooFarBack? <==> n > MAX_ROLLBACK_SCAN && n - target >= MAX_ROLLBACK_SCAN
    ensures !answer.CursorGone?
  {
    assert Readable(stores(0));
    GaplessAbove(stores(0), ref, n, target);
    AnswersIff(stores, fails, ref, target, answer, pages, seen);
  }
}
