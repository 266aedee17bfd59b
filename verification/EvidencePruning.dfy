/**
 The evidence log when old rows are pruned and verification starts at a cursor:
 which pages of which runs Verify accepts. Prune keeps the counters and the
 heads, and Verify starts its walk from no predecessor at all.
 */
module EvidencePruning {
  import opened Common
  import opened EvidenceChain
  import opened EvidenceStore

  // ---- Runs with pruning, and the log they write ----

  datatype Action =
    | Write(op: Op)
    | Prune(cutoff: int, current: set<ID>)

  /** A store and every record ever appended to each Ref, as it was appended. */
  datatype Chronicle = Chronicle(db: Db, log: map<Ref, seq<Record>>)

  function LogOf(log: map<Ref, seq<Record>>, ref: Ref): seq<Record> {
    if ref in log then log[ref] else []
  }

  function Logged(h: Hasher, c: Chronicle, op: Op): map<Ref, seq<Record>> {
    if op.Append? && AppendReply(h, c.db, op.draft, op.nanos, op.now).Stored? then
      c.log[op.draft.ref := LogOf(c.log, op.draft.ref) + [NewRecord(h, c.db, op.draft, op.nanos, op.now)]]
    else c.log
  }

  function Written(h: Hasher, db: Db, op: Op): Db {
    match op
    case Append(d, nanos, now) => AfterAppend(h, db, d, nanos, now)
    case Move(id, t, now) => AfterMove(h, db, id, t, now)
  }

  function Act(h: Hasher, c: Chronicle, a: Action): Chronicle {
    match a
    case Write(op) => Chronicle(Written(h, c.db, op), Logged(h, c, op))
    case Prune(cutoff, current) => c.(db := AfterPrune(c.db, cutoff, current))
  }

  function Told(h: Hasher, actions: seq<Action>): Chronicle {
    if actions == [] then Chronicle(EMPTY, map[]) else Act(h, Told(h, Init(actions)), Last(actions))
  }

  // ---- The invariant ----

  ghost predicate EntryOk(h: Hasher, l: seq<Record>, ref: Ref, i: nat)
    requires i < |l|
  {
    l[i].ref == ref && l[i].seqNo == i + 1 && l[i].prevHash == PrevOf(l, i) && RowOk(h, l[i].id, l[i], l[i])
  }

  /** What was appended to a Ref: Seq counts from one and each record is hashed over the one before it. */
  ghost predicate LogOk(h: Hasher, l: seq<Record>, ref: Ref) {
    forall i :: 0 <= i < |l| ==> EntryOk(h, l, ref, i)
  }

  ghost predicate CounterOk(seqs: map<Ref, int>, heads: map<Ref, Bytes>, l: seq<Record>, ref: Ref) {
    && (ref in seqs <==> l != []) && (ref in heads <==> l != [])
    && (l != [] ==> seqs[ref] == |l| && heads[ref] == Last(l).hash)
  }

  ghost predicate RefLogOk(h: Hasher, seqs: map<Ref, int>, heads: map<Ref, Bytes>, log: map<Ref, seq<Record>>, ref: Ref) {
    LogOk(h, LogOf(log, ref), ref) && CounterOk(seqs, heads, LogOf(log, ref), ref)
  }

  /** A row is its log entry, moved on by transitions. */
  ghost predicate OnLog(h: Hasher, l: seq<Record>, r: Record) {
    1 <= r.seqNo <= |l| && RowOk(h, r.id, r, l[r.seqNo - 1])
  }

  predicate Follows(byId: map<ID, Record>, a: ID, b: ID) {
    a in byId && b in byId && byId[a].ref == byId[b].ref ==> byId[a].seqNo < byId[b].seqNo
  }

  /** The rows of a Ref stand in the order of their Seq. */
  ghost predicate InSeqOrder(byId: map<ID, Record>, order: seq<ID>) {
    forall i, j :: 0 <= i < j < |order| ==> Follows(byId, order[i], order[j])
  }

  ghost predicate LogsOk(h: Hasher, c: Chronicle) {
    forall ref :: RefLogOk(h, c.db.seqs, c.db.heads, c.log, ref)
  }

  ghost predicate Rooted(h: Hasher, log: map<Ref, seq<Record>>, id: ID, r: Record) {
    r.id == id && OnLog(h, LogOf(log, r.ref), r)
  }

  ghost predicate RowsOnLog(h: Hasher, c: Chronicle) {
    forall id :: id in c.db.byId ==> Rooted(h, c.log, id, c.db.byId[id])
  }

  ghost predicate Sound(h: Hasher, c: Chronicle) {
    Indexed(c.db) && LogsOk(h, c) && RowsOnLog(h, c) && InSeqOrder(c.db.byId, c.db.order)
  }

  // ---- Every action keeps it ----

  lemma MovedOnLog(h: Hasher, l: seq<Record>, r: Record, t: Transition, now: Time)
    requires OnLog(h, l, r)
    ensures var r' := Moved(h, r, t, now);
            OnLog(h, l, r') && r'.id == r.id && r'.ref == r.ref && r'.seqNo == r.seqNo
  {
    MovedRowOk(h, r.id, r, l[r.seqNo - 1], t, now);
  }

  /** Rows replaced by rows with the same place. */
  ghost predicate SamePlaces(byId: map<ID, Record>, byId': map<ID, Record>) {
    byId'.Keys == byId.Keys && forall id :: id in byId ==> byId'[id].ref == byId[id].ref && byId'[id].seqNo == byId[id].seqNo
  }

  lemma SamePlacesSameOrder(byId: map<ID, Record>, byId': map<ID, Record>, order: seq<ID>)
    requires SamePlaces(byId, byId') && InSeqOrder(byId, order)
    ensures InSeqOrder(byId', order)
  {
    forall i, j | 0 <= i < j < |order| ensures Follows(byId', order[i], order[j]) {
      assert Follows(byId, order[i], order[j]);
    }
  }

  lemma MoveIsSound(h: Hasher, c: Chronicle, id: ID, t: Transition, now: Time)
    requires Sound(h, c)
    ensures Sound(h, Act(h, c, Write(Move(id, t, now))))
  {
    if MoveReply(h, c.db, id, t, now).Stored? {
      assert Rooted(h, c.log, id, c.db.byId[id]);
      MovedOnLog(h, LogOf(c.log, c.db.byId[id].ref), c.db.byId[id], t, now);
      ReplacedIsSound(h, c, id, Moved(h, c.db.byId[id], t, now));
      assert Act(h, c, Write(Move(id, t, now))) == Replaced(c, id, Moved(h, c.db.byId[id], t, now));
    } else {
      assert Act(h, c, Write(Move(id, t, now))) == c;
    }
  }

  function Replaced(c: Chronicle, id: ID, r': Record): Chronicle {
    c.(db := c.db.(byId := c.db.byId[id := r']))
  }

  lemma ReplacedOrder(c: Chronicle, id: ID, r': Record)
    requires InSeqOrder(c.db.byId, c.db.order) && id in c.db.byId
    requires r'.ref == c.db.byId[id].ref && r'.seqNo == c.db.byId[id].seqNo
    ensures InSeqOrder(Replaced(c, id, r').db.byId, Replaced(c, id, r').db.order)
  {
    SamePlacesSameOrder(c.db.byId, c.db.byId[id := r'], c.db.order);
  }

  lemma ReplacedIsIndexed(c: Chronicle, id: ID, r': Record)
    requires Indexed(c.db) && id in c.db.byId
    ensures Indexed(Replaced(c, id, r').db)
  {
    assert c.db.byId[id := r'].Keys == c.db.byId.Keys;
  }

  lemma ReplacedIsRooted(h: Hasher, c: Chronicle, id: ID, r': Record)
    requires RowsOnLog(h, c) && Rooted(h, c.log, id, r')
    ensures RowsOnLog(h, Replaced(c, id, r'))
  {
    forall x | x in c.db.byId && x != id ensures Rooted(h, c.log, x, c.db.byId[x]) {}
  }

  lemma ReplacedLogs(h: Hasher, c: Chronicle, id: ID, r': Record)
    requires LogsOk(h, c)
    ensures LogsOk(h, Replaced(c, id, r'))
  {}

  lemma ReplacedIsSound(h: Hasher, c: Chronicle, id: ID, r': Record)
    requires Sound(h, c) && id in c.db.byId && Rooted(h, c.log, id, r')
    requires r'.ref == c.db.byId[id].ref && r'.seqNo == c.db.byId[id].seqNo
    ensures Sound(h, Replaced(c, id, r'))
  {
    ReplacedOrder(c, id, r');
    ReplacedIsRooted(h, c, id, r');
    ReplacedIsIndexed(c, id, r');
    ReplacedLogs(h, c, id, r');
  }

  lemma LogGrows(h: Hasher, l: seq<Record>, ref: Ref, r: Record)
    requires LogOk(h, l, ref) && r.ref == ref && r.seqNo == |l| + 1 && RowOk(h, r.id, r, r)
    requires r.prevHash == if l == [] then [] else Last(l).hash
    ensures LogOk(h, l + [r], ref)
  {
    forall i | 0 <= i < |l| + 1 ensures EntryOk(h, l + [r], ref, i) {
      if i < |l| {
        assert EntryOk(h, l, ref, i);
      }
    }
  }

  lemma OnLongerLog(h: Hasher, l: seq<Record>, x: Record, r: Record)
    requires OnLog(h, l, r)
    ensures OnLog(h, l + [x], r)
  {}

  function Grown(c: Chronicle, r: Record): Chronicle {
    Chronicle(Extended(c.db, r), c.log[r.ref := LogOf(c.log, r.ref) + [r]])
  }

  /** A record as Append makes it. */
  ghost predicate Next(h: Hasher, c: Chronicle, r: Record) {
    && RowOk(h, r.id, r, r) && r.id !in c.db.byId && r.id.key !in c.db.byKey
    && r.seqNo == (if r.ref in c.db.seqs then c.db.seqs[r.ref] else 0) + 1
    && r.prevHash == if r.ref in c.db.heads then c.db.heads[r.ref] else []
  }

  lemma GrownLogs(h: Hasher, c: Chronicle, r: Record)
    requires LogsOk(h, c) && Next(h, c, r)
    ensures LogsOk(h, Grown(c, r)) && r.seqNo == |LogOf(c.log, r.ref)| + 1
  {
    var c' := Grown(c, r);
    assert RefLogOk(h, c.db.seqs, c.db.heads, c.log, r.ref);
    LogGrows(h, LogOf(c.log, r.ref), r.ref, r);
    forall ref ensures RefLogOk(h, c'.db.seqs, c'.db.heads, c'.log, ref) {
      assert RefLogOk(h, c.db.seqs, c.db.heads, c.log, ref);
    }
  }

  lemma GrownRows(h: Hasher, c: Chronicle, r: Record)
    requires RowsOnLog(h, c) && RowOk(h, r.id, r, r) && r.seqNo == |LogOf(c.log, r.ref)| + 1
    ensures RowsOnLog(h, Grown(c, r))
  {
    var c' := Grown(c, r);
    forall id | id in c'.db.byId ensures Rooted(h, c'.log, id, c'.db.byId[id]) {
      if id != r.id {
        assert Rooted(h, c.log, id, c.db.byId[id]);
        if c.db.byId[id].ref == r.ref {
          OnLongerLog(h, LogOf(c.log, r.ref), r, c.db.byId[id]);
        }
      }
    }
  }

  lemma GrownOrder(h: Hasher, c: Chronicle, r: Record)
    requires RowsOnLog(h, c) && InSeqOrder(c.db.byId, c.db.order)
    requires r.id !in c.db.byId && r.id !in c.db.order && r.seqNo == |LogOf(c.log, r.ref)| + 1
    ensures InSeqOrder(Grown(c, r).db.byId, Grown(c, r).db.order)
  {
    var order, order', byId, byId' := c.db.order, c.db.order + [r.id], c.db.byId, c.db.byId[r.id := r];
    forall i, j | 0 <= i < j < |order'| ensures Follows(byId', order'[i], order'[j]) {
      if j < |order| {
        assert Follows(byId, order[i], order[j]);
      } else if order[i] in byId {
        assert Rooted(h, c.log, order[i], byId[order[i]]);
      }
    }
  }

  lemma GrownIsSound(h: Hasher, c: Chronicle, r: Record)
    requires Sound(h, c) && Next(h, c, r)
    ensures Sound(h, Grown(c, r))
  {
    GrownLogs(h, c, r);
    GrownRows(h, c, r);
    GrownOrder(h, c, r);
    ExtendedIsIndexed(c.db, r);
  }

  lemma AppendIsSound(h: Hasher, c: Chronicle, d: Draft, nanos: int, now: Time)
    requires Sound(h, c)
    ensures Sound(h, Act(h, c, Write(Append(d, nanos, now))))
  {
    if AppendReply(h, c.db, d, nanos, now).Stored? {
      var r := NewRecord(h, c.db, d, nanos, now);
      NewRecordOk(h, c.db, d, nanos, now);
      FreshKey(c.db, d, nanos, now, h);
      GrownIsSound(h, c, r);
      assert Act(h, c, Write(Append(d, nanos, now))) == Grown(c, r);
    } else {
      assert Act(h, c, Write(Append(d, nanos, now))) == c;
    }
  }

  lemma FreshKey(db: Db, d: Draft, nanos: int, now: Time, h: Hasher)
    requires Indexed(db) && AppendReply(h, db, d, nanos, now).Stored?
    ensures d.idempotencyKey !in db.byKey && ID(nanos, d.idempotencyKey) !in db.byId
  {}

  lemma {:induction false} SurvivorsAre(byId: map<ID, Record>, order: seq<ID>, cutoff: int, current: set<ID>, id: ID)
    ensures id in Surviving(byId, order, cutoff, current) <==> id in order && !Doomed(byId, id, cutoff, current)
  {
    if order != [] {
      assert order == Init(order) + [Last(order)];
      SurvivorsAre(byId, Init(order), cutoff, current, id);
    }
  }

  lemma {:induction false} SurvivorsInOrder(byId: map<ID, Record>, order: seq<ID>, cutoff: int, current: set<ID>)
    requires InSeqOrder(byId, order)
    ensures InSeqOrder(byId, Surviving(byId, order, cutoff, current))
  {
    if order != [] {
      var init, kept := Init(order), Surviving(byId, Init(order), cutoff, current);
      InitInOrder(byId, order);
      SurvivorsInOrder(byId, init, cutoff, current);
      forall i | 0 <= i < |kept| ensures Follows(byId, kept[i], Last(order)) {
        SurvivorsAre(byId, init, cutoff, current, kept[i]);
      }
    }
  }

  lemma InitInOrder(byId: map<ID, Record>, order: seq<ID>)
    requires order != [] && InSeqOrder(byId, order)
    ensures InSeqOrder(byId, Init(order)) && forall id :: id in Init(order) ==> Follows(byId, id, Last(order))
  {
    var init := Init(order);
    forall i, j | 0 <= i < j < |init| ensures Follows(byId, init[i], init[j]) {
      assert Follows(byId, order[i], order[j]);
    }
    forall id | id in init ensures Follows(byId, id, Last(order)) {
      var k :| 0 <= k < |init| && init[k] == id;
      assert Follows(byId, order[k], order[|order| - 1]);
    }
  }

  lemma FewerStillFollow(byId: map<ID, Record>, byId': map<ID, Record>, order: seq<ID>)
    requires InSeqOrder(byId, order) && forall id :: id in byId' ==> id in byId && byId'[id] == byId[id]
    ensures InSeqOrder(byId', order)
  {
    forall i, j | 0 <= i < j < |order| ensures Follows(byId', order[i], order[j]) {
      assert Follows(byId, order[i], order[j]);
    }
  }

  lemma PruneLeaves(db: Db, cutoff: int, current: set<ID>, id: ID)
    requires Indexed(db)
    ensures id in AfterPrune(db, cutoff, current).byId <==> id in db.byId && !Doomed(db.byId, id, cutoff, current)
    ensures id in AfterPrune(db, cutoff, current).byId ==> AfterPrune(db, cutoff, current).byId[id] == db.byId[id]
    ensures id in AfterPrune(db, cutoff, current).order <==> id in db.byId && !Doomed(db.byId, id, cutoff, current)
  {
    SurvivorsAre(db.byId, db.order, cutoff, current, id);
  }

  /** No key of a row that stays is taken with the rows that go. */
  lemma KeysStay(db: Db, cutoff: int, current: set<ID>, id: ID)
    requires Indexed(db) && id in db.byId && db.byId[id].idempotencyKey == id.key
    requires forall x :: x in db.byId ==> db.byId[x].idempotencyKey == x.key
    ensures id.key in AfterPrune(db, cutoff, current).byKey <==> !Doomed(db.byId, id, cutoff, current)
  {
    if Doomed(db.byId, id, cutoff, current) {
      assert id in db.order;
    }
    if id.key in KeysGone(db.byId, db.order, cutoff, current) {
      var x :| x in db.order && Doomed(db.byId, x, cutoff, current) && db.byId[x].idempotencyKey == id.key;
      assert x.key == id.key && db.byKey[x.key] == x && db.byKey[id.key] == id;
    }
  }

  lemma PruneKeepsIndex(db: Db, cutoff: int, current: set<ID>)
    requires Indexed(db) && forall x :: x in db.byId ==> db.byId[x].idempotencyKey == x.key
    ensures Indexed(AfterPrune(db, cutoff, current))
  {
    var db' := AfterPrune(db, cutoff, current);
    forall id | id in db'.byId ensures id.key in db'.byKey && db'.byKey[id.key] == id && id in db'.order {
      PruneLeaves(db, cutoff, current, id);
      KeysStay(db, cutoff, current, id);
    }
    forall k | k in db'.byKey ensures db'.byKey[k] in db'.byId && db'.byKey[k].key == k {
      KeysStay(db, cutoff, current, db.byKey[k]);
      PruneLeaves(db, cutoff, current, db.byKey[k]);
    }
    forall i | 0 <= i < |db'.order| ensures db'.order[i] in db'.byId {
      assert db'.order[i] in db'.order;
      PruneLeaves(db, cutoff, current, db'.order[i]);
    }
  }

  lemma PruneIsSound(h: Hasher, c: Chronicle, cutoff: int, current: set<ID>)
    requires Sound(h, c)
    ensures Sound(h, Act(h, c, Prune(cutoff, current)))
  {
    var c' := Act(h, c, Prune(cutoff, current));
    forall x | x in c.db.byId ensures c.db.byId[x].idempotencyKey == x.key {
      assert Rooted(h, c.log, x, c.db.byId[x]);
    }
    PruneKeepsIndex(c.db, cutoff, current);
    SurvivorsInOrder(c.db.byId, c.db.order, cutoff, current);
    forall id | id in c'.db.byId ensures Rooted(h, c'.log, id, c'.db.byId[id]) {
      assert id in c.db.byId ==> Rooted(h, c.log, id, c.db.byId[id]);
      PruneLeaves(c.db, cutoff, current, id);
    }
    FewerStillFollow(c.db.byId, c'.db.byId, c'.db.order);
  }

  /** Over any run of appends, transitions and prunes, whatever each prune found current. */
  lemma {:induction false} RunIsSound(h: Hasher, actions: seq<Action>)
    ensures Sound(h, Told(h, actions))
  {
    if actions != [] {
      RunIsSound(h, Init(actions));
      match Last(actions)
      case Write(Append(d, nanos, now)) => AppendIsSound(h, Told(h, Init(actions)), d, nanos, now);
      case Write(Move(id, t, now)) => MoveIsSound(h, Told(h, Init(actions)), id, t, now);
      case Prune(cutoff, current) => PruneIsSound(h, Told(h, Init(actions)), cutoff, current);
    }
  }

  // ---- Which pages re-derive ----

  /** Rows of one Ref in the order of their Seq, each its log entry moved on. */
  ghost predicate PageOk(h: Hasher, l: seq<Record>, page: seq<Record>) {
    && (forall i :: 0 <= i < |page| ==> OnLog(h, l, page[i]))
    && (forall i, j :: 0 <= i < j < |page| ==> page[i].seqNo < page[j].seqNo)
  }

  /** The first rows of the log, none missing. */
  predicate FromTheStart(page: seq<Record>) {
    forall i :: 0 <= i < |page| ==> page[i].seqNo == i + 1
  }

  lemma {:induction false} SeqRunsAhead(h: Hasher, l: seq<Record>, page: seq<Record>, i: nat)
    requires PageOk(h, l, page) && i < |page|
    ensures page[i].seqNo >= i + 1
  {
    assert OnLog(h, l, page[i]);
    if i > 0 {
      SeqRunsAhead(h, l, page, i - 1);
    }
  }

  lemma {:induction false} SeqStaysBehind(h: Hasher, l: seq<Record>, page: seq<Record>, i: nat)
    requires PageOk(h, l, page) && i < |page|
    ensures page[i].seqNo <= Last(page).seqNo - (|page| - 1 - i)
    decreases |page| - i
  {
    if i < |page| - 1 {
      SeqStaysBehind(h, l, page, i + 1);
    }
  }

  /** No row is missing from the first ones exactly when the last of them has as its Seq how many there are. */
  lemma NoneMissingIff(h: Hasher, l: seq<Record>, page: seq<Record>)
    requires PageOk(h, l, page) && page != []
    ensures FromTheStart(page) <==> Last(page).seqNo == |page|
  {
    assert Last(page) == page[|page| - 1];
    if Last(page).seqNo == |page| {
      forall i | 0 <= i < |page| ensures page[i].seqNo == i + 1 {
        SeqRunsAhead(h, l, page, i);
        SeqStaysBehind(h, l, page, i);
      }
    }
  }

  predicate AsAppended(l: seq<Record>, r: Record) {
    1 <= r.seqNo <= |l| && r.image == l[r.seqNo - 1].image && r.admission == l[r.seqNo - 1].admission
  }

  predicate AllAsAppended(l: seq<Record>, page: seq<Record>) {
    forall i :: 0 <= i < |page| ==> AsAppended(l, page[i])
  }

  /** No encoding of a record is another's with 32 bytes in front, as no JSON object is. */
  ghost predicate Frames(h: Hasher) {
    forall a, b, p: Bytes :: |p| == 32 ==> p + h.recordJson(a) != h.recordJson(b)
  }

  lemma RowDerivation(h: Hasher, l: seq<Record>, r: Record)
    requires OnLog(h, l, r)
    ensures var b := l[r.seqNo - 1];
            && r.hash == h.sha(b.prevHash + h.recordJson(Chained(b))) && r.hash == b.hash
            && (Chained(r) == Chained(b) <==> AsAppended(l, r))
            && EventsLinked(h, r.hash, r.id, r.transitions)
  {
    var b := l[r.seqNo - 1];
    RowContinues(h, r.id, r, b);
  }

  /** Equal hashes over predecessors that are hashes or nothing are of equal predecessors and records, or collide. */
  lemma SameHash(h: Hasher, p: Bytes, a: ChainedRecord, q: Bytes, b: ChainedRecord) returns (c: Option<Collision>)
    requires Separates(h) && Frames(h) && (p == [] || |p| == 32) && (q == [] || |q| == 32)
    requires h.sha(p + h.recordJson(a)) == h.sha(q + h.recordJson(b))
    ensures c.Some? ==> Collides(h.sha, c.value)
    ensures c.None? ==> p == q && a == b
  {
    var x, y := p + h.recordJson(a), q + h.recordJson(b);
    assert p == [] ==> x == h.recordJson(a);
    assert q == [] ==> y == h.recordJson(b);
    c := None;
    if x != y {
      c := Some(Collision(x, y));
    } else if |p| == |q| {
      ConcatSplits(p, h.recordJson(a), q, h.recordJson(b));
    }
  }

  lemma EntryHash(h: Hasher, l: seq<Record>, ref: Ref, i: nat)
    requires LogOk(h, l, ref) && i < |l|
    ensures l[i].hash == h.sha(l[i].prevHash + h.recordJson(Chained(l[i]))) && |l[i].hash| == 32
    ensures l[i].prevHash == PrevOf(l, i) && (if i == 0 then l[i].prevHash == [] else |l[i].prevHash| == 32)
    ensures Chained(l[i]).seqNo == i + 1
  {
    assert EntryOk(h, l, ref, i);
    assert i > 0 ==> EntryOk(h, l, ref, i - 1);
  }

  lemma RowHash(h: Hasher, l: seq<Record>, ref: Ref, r: Record)
    requires LogOk(h, l, ref) && OnLog(h, l, r)
    ensures r.hash == l[r.seqNo - 1].hash && |r.hash| == 32
  {
    EntryHash(h, l, ref, r.seqNo - 1);
  }

  /** One row at the start of a walk: it re-derives only if it is the first of the log and as it was appended. */
  lemma FirstRow(h: Hasher, l: seq<Record>, ref: Ref, r: Record) returns (c: Option<Collision>)
    requires Separates(h) && Frames(h) && LogOk(h, l, ref) && OnLog(h, l, r) && r.hash == ChainRecord(h, [], r)
    ensures c.Some? ==> Collides(h.sha, c.value)
    ensures c.None? ==> r.seqNo == 1 && AsAppended(l, r)
  {
    var b := l[r.seqNo - 1];
    RowDerivation(h, l, r);
    EntryHash(h, l, ref, r.seqNo - 1);
    c := SameHash(h, [], Chained(r), b.prevHash, Chained(b));
  }

  /** Two different entries of one log do not have one hash. */
  lemma HashesDiffer(h: Hasher, l: seq<Record>, ref: Ref, i: nat, j: nat) returns (c: Option<Collision>)
    requires Separates(h) && Frames(h) && LogOk(h, l, ref) && i < j < |l| && l[i].hash == l[j].hash
    ensures c.Some? && Collides(h.sha, c.value)
  {
    EntryHash(h, l, ref, i);
    EntryHash(h, l, ref, j);
    c := SameHash(h, l[i].prevHash, Chained(l[i]), l[j].prevHash, Chained(l[j]));
  }

  /** A row after another: it re-derives only if it is the very next of the log and as it was appended. */
  lemma NextRow(h: Hasher, l: seq<Record>, ref: Ref, before: Record, r: Record) returns (c: Option<Collision>)
    requires Separates(h) && Frames(h) && LogOk(h, l, ref) && OnLog(h, l, before) && OnLog(h, l, r) && before.seqNo < r.seqNo
    requires r.hash == ChainRecord(h, before.hash, r)
    ensures c.Some? ==> Collides(h.sha, c.value)
    ensures c.None? ==> r.seqNo == before.seqNo + 1 && AsAppended(l, r)
  {
    var b := l[r.seqNo - 1];
    RowDerivation(h, l, r);
    RowHash(h, l, ref, before);
    EntryHash(h, l, ref, r.seqNo - 1);
    c := SameHash(h, before.hash, Chained(r), b.prevHash, Chained(b));
    if c.None? && r.seqNo != before.seqNo + 1 {
      c := HashesDiffer(h, l, ref, before.seqNo - 1, r.seqNo - 2);
    }
  }

  lemma StartRederives(h: Hasher, l: seq<Record>, ref: Ref, page: seq<Record>, i: nat)
    requires LogOk(h, l, ref) && PageOk(h, l, page) && i < |page|
    requires page[i].seqNo == i + 1 && (i > 0 ==> page[i - 1].seqNo == i) && AsAppended(l, page[i])
    ensures RowHolds(h, page, i)
  {
    assert EntryOk(h, l, ref, i) && OnLog(h, l, page[i]);
    RowDerivation(h, l, page[i]);
    if i > 0 {
      assert OnLog(h, l, page[i - 1]);
      RowDerivation(h, l, page[i - 1]);
    }
  }

  /**
   A walk over rows of one Ref accepts them if and only if they are the first of
   its log with none missing, each with the image and admission it was appended
   with, short of a collision.
   */
  lemma {:induction false} PageHoldsIff(h: Hasher, l: seq<Record>, ref: Ref, page: seq<Record>) returns (c: Option<Collision>)
    requires Separates(h) && Frames(h) && LogOk(h, l, ref) && PageOk(h, l, page)
    ensures c.Some? ==> Collides(h.sha, c.value)
    ensures c.None? ==> (RowsHold(h, page, |page|) <==> FromTheStart(page) && AllAsAppended(l, page))
  {
    c := None;
    if page != [] {
      var init, n := Init(page), |page| - 1;
      assert forall i :: 0 <= i < n ==> init[i] == page[i];
      c := PageHoldsIff(h, l, ref, init);
      InitHolds(h, page);
      StartSnoc(l, page);
      if c.None? && FromTheStart(init) {
        c := LastRowIff(h, l, ref, page);
      }
    }
  }

  lemma InitHolds(h: Hasher, page: seq<Record>)
    requires page != []
    ensures RowsHold(h, page, |page|) <==> RowsHold(h, Init(page), |page| - 1) && RowHolds(h, page, |page| - 1)
  {
    assert forall i :: 0 <= i < |page| - 1 ==> RowHolds(h, Init(page), i) == RowHolds(h, page, i);
  }

  lemma StartSnoc(l: seq<Record>, page: seq<Record>)
    requires page != []
    ensures FromTheStart(page) <==> FromTheStart(Init(page)) && Last(page).seqNo == |page|
    ensures AllAsAppended(l, page) <==> AllAsAppended(l, Init(page)) && AsAppended(l, Last(page))
  {
    assert forall i :: 0 <= i < |page| - 1 ==> Init(page)[i] == page[i];
    assert Last(page) == page[|page| - 1];
  }

  lemma LastRowOnly(h: Hasher, l: seq<Record>, ref: Ref, page: seq<Record>) returns (c: Option<Collision>)
    requires Separates(h) && Frames(h) && LogOk(h, l, ref) && page != [] && PageOk(h, l, page)
    requires FromTheStart(Init(page)) && RowHolds(h, page, |page| - 1)
    ensures c.Some? ==> Collides(h.sha, c.value)
    ensures c.None? ==> Last(page).seqNo == |page| && AsAppended(l, Last(page))
  {
    var n := |page| - 1;
    assert OnLog(h, l, page[n]);
    if n == 0 {
      c := FirstRow(h, l, ref, page[0]);
    } else {
      assert OnLog(h, l, page[n - 1]) && Init(page)[n - 1] == page[n - 1];
      c := NextRow(h, l, ref, page[n - 1], page[n]);
    }
  }

  lemma LastRowIff(h: Hasher, l: seq<Record>, ref: Ref, page: seq<Record>) returns (c: Option<Collision>)
    requires Separates(h) && Frames(h) && LogOk(h, l, ref) && page != [] && PageOk(h, l, page)
    requires FromTheStart(Init(page))
    ensures c.Some? ==> Collides(h.sha, c.value)
    ensures c.None? ==> (RowHolds(h, page, |page| - 1) <==> Last(page).seqNo == |page| && AsAppended(l, Last(page)))
  {
    var n := |page| - 1;
    assert n > 0 ==> Init(page)[n - 1] == page[n - 1];
    c := None;
    if RowHolds(h, page, n) {
      c := LastRowOnly(h, l, ref, page);
    } else if Last(page).seqNo == |page| && AsAppended(l, Last(page)) {
      StartRederives(h, l, ref, page, n);
    }
  }

  // ---- From any cursor, after any run ----

  /** The rows of a Ref from a place in the order on. */
  function RowsFrom(db: Db, ref: Ref, k: nat): seq<Record>
    requires k <= |db.order| && forall i :: 0 <= i < |db.order| ==> db.order[i] in db.byId
  {
    RowsAt(db.byId, RefIds(db.byId, db.order[k..], ref))
  }

  lemma OrderFrom(db: Db, k: nat)
    requires k <= |db.order| && (forall i :: 0 <= i < |db.order| ==> db.order[i] in db.byId) && InSeqOrder(db.byId, db.order)
    ensures (forall i :: 0 <= i < |db.order[k..]| ==> db.order[k..][i] in db.byId) && InSeqOrder(db.byId, db.order[k..])
  {
    assert forall i :: 0 <= i < |db.order| - k ==> db.order[k..][i] == db.order[k + i];
    forall i, j | 0 <= i < j < |db.order| - k ensures Follows(db.byId, db.order[k..][i], db.order[k..][j]) {
      assert Follows(db.byId, db.order[k + i], db.order[k + j]);
    }
  }

  lemma PageIsOk(h: Hasher, c: Chronicle, ref: Ref, k: nat)
    requires Sound(h, c) && k <= |c.db.order|
    ensures PageOk(h, LogOf(c.log, ref), RowsFrom(c.db, ref, k))
  {
    OrderFrom(c.db, k);
    RefIdsAscend(c.db.byId, c.db.order[k..], ref);
    var ids := RefIds(c.db.byId, c.db.order[k..], ref);
    forall i | 0 <= i < |ids| ensures OnLog(h, LogOf(c.log, ref), c.db.byId[ids[i]]) {
      assert Rooted(h, c.log, ids[i], c.db.byId[ids[i]]);
    }
  }

  lemma PageIsCut(db: Db, ref: Ref, after: Option<ID>, page: seq<Record>)
    requires (forall i :: 0 <= i < |db.order| ==> db.order[i] in db.byId) && PageOf(db, ref, after) == Some(page)
    ensures StartOf(db.order, after) <= |db.order| && |page| <= |RowsFrom(db, ref, StartOf(db.order, after))|
    ensures page == RowsFrom(db, ref, StartOf(db.order, after))[..|page|]
  {}

  lemma {:induction false} RefIdsListed(byId: map<ID, Record>, order: seq<ID>, ref: Ref, id: ID)
    requires forall i :: 0 <= i < |order| ==> order[i] in byId
    ensures id in RefIds(byId, order, ref) ==> id in order
  {
    if order != [] {
      assert order == Init(order) + [Last(order)];
      assert forall i :: 0 <= i < |Init(order)| ==> Init(order)[i] == order[i];
      RefIdsListed(byId, Init(order), ref, id);
    }
  }

  ghost predicate SeqsAscend(byId: map<ID, Record>, ids: seq<ID>)
    requires forall i :: 0 <= i < |ids| ==> ids[i] in byId
  {
    forall i, j :: 0 <= i < j < |ids| ==> byId[ids[i]].seqNo < byId[ids[j]].seqNo
  }

  lemma {:induction false} RefIdsAscend(byId: map<ID, Record>, order: seq<ID>, ref: Ref)
    requires (forall i :: 0 <= i < |order| ==> order[i] in byId) && InSeqOrder(byId, order)
    ensures SeqsAscend(byId, RefIds(byId, order, ref))
  {
    if order != [] {
      var init := Init(order);
      assert forall i :: 0 <= i < |init| ==> init[i] == order[i];
      InitInOrder(byId, order);
      RefIdsAscend(byId, init, ref);
      if byId[Last(order)].ref == ref {
        LastIsBeyond(byId, order, ref);
        assert RefIds(byId, order, ref) == RefIds(byId, init, ref) + [Last(order)];
      } else {
        assert RefIds(byId, order, ref) == RefIds(byId, init, ref);
      }
    }
  }

  lemma LastIsBeyond(byId: map<ID, Record>, order: seq<ID>, ref: Ref)
    requires order != [] && (forall i :: 0 <= i < |order| ==> order[i] in byId) && InSeqOrder(byId, order)
    requires byId[Last(order)].ref == ref && forall i :: 0 <= i < |Init(order)| ==> Init(order)[i] in byId
    ensures var ids := RefIds(byId, Init(order), ref);
            forall i :: 0 <= i < |ids| ==> byId[ids[i]].seqNo < byId[Last(order)].seqNo
  {
    var ids := RefIds(byId, Init(order), ref);
    InitInOrder(byId, order);
    forall i | 0 <= i < |ids| ensures byId[ids[i]].seqNo < byId[Last(order)].seqNo {
      RefIdsListed(byId, Init(order), ref, ids[i]);
      assert Follows(byId, ids[i], Last(order));
    }
  }

  lemma PageCut(h: Hasher, l: seq<Record>, page: seq<Record>, n: nat)
    requires PageOk(h, l, page) && n <= |page|
    ensures PageOk(h, l, page[..n])
  {
    assert forall i :: 0 <= i < n ==> page[..n][i] == page[i];
  }

  lemma HoldsCut(h: Hasher, page: seq<Record>, n: nat)
    requires n <= |page|
    ensures RowsHold(h, page, n) <==> RowsHold(h, page[..n], n)
  {
    assert forall i :: 0 <= i < n ==> RowHolds(h, page[..n], i) == RowHolds(h, page, i);
  }

  /**
   After any run of appends, transitions and prunes, and from any cursor up to any
   end, Verify accepts what it walked if and only if that is the beginning of the
   Ref's log with no row missing and none drifted: a walk from a later cursor, or
   over a log whose oldest row is gone, is refused, short of a collision.
   */
  lemma VerifiesIffFromTheStart(h: Hasher, actions: seq<Action>, ref: Ref, after: Option<ID>, page: seq<Record>, past: ID -> bool)
    returns (c: Option<Collision>)
    requires Separates(h) && Frames(h) && Sound(h, Told(h, actions))
    requires PageOf(Told(h, actions).db, ref, after) == Some(page)
    ensures c.Some? ==> Collides(h.sha, c.value)
    ensures var walked := page[..Before(page, past)];
            c.None? ==> (RowsHold(h, page, Before(page, past))
                         <==> FromTheStart(walked) && AllAsAppended(LogOf(Told(h, actions).log, ref), walked))
  {
    var w, n := Told(h, actions), Before(page, past);
    var l := LogOf(w.log, ref);
    WalkedIsOk(h, w, ref, after, page, n);
    HoldsCut(h, page, n);
    c := PageHoldsIff(h, l, ref, page[..n]);
  }

  lemma WalkedIsOk(h: Hasher, w: Chronicle, ref: Ref, after: Option<ID>, page: seq<Record>, n: nat)
    requires Sound(h, w) && PageOf(w.db, ref, after) == Some(page) && n <= |page|
    ensures LogOk(h, LogOf(w.log, ref), ref) && PageOk(h, LogOf(w.log, ref), page[..n])
  {
    PageIsCut(w.db, ref, after, page);
    WalkedFrom(h, w, ref, StartOf(w.db.order, after), page, n);
  }

  lemma WalkedFrom(h: Hasher, w: Chronicle, ref: Ref, k: nat, page: seq<Record>, n: nat)
    requires Sound(h, w) && k <= |w.db.order| && n <= |page|
    requires |page| <= |RowsFrom(w.db, ref, k)| && page == RowsFrom(w.db, ref, k)[..|page|]
    ensures LogOk(h, LogOf(w.log, ref), ref) && PageOk(h, LogOf(w.log, ref), page[..n])
  {
    PageIsOk(h, w, ref, k);
    PageCut(h, LogOf(w.log, ref), RowsFrom(w.db, ref, k), n);
    assert page[..n] == RowsFrom(w.db, ref, k)[..n];
    assert RefLogOk(h, w.db.seqs, w.db.heads, w.log, ref);
  }

  /** So a walk that got somewhere is accepted exactly when its last Seq is its length and nothing in it drifted. */
  lemma VerifiesIffSeqIsTheLength(h: Hasher, actions: seq<Action>, ref: Ref, after: Option<ID>, page: seq<Record>, past: ID -> bool)
    returns (c: Option<Collision>)
    requires Separates(h) && Frames(h) && Sound(h, Told(h, actions))
    requires PageOf(Told(h, actions).db, ref, after) == Some(page) && Before(page, past) > 0
    ensures c.Some? ==> Collides(h.sha, c.value)
    ensures var n := Before(page, past);
            c.None? ==> (RowsHold(h, page, n) <==> page[n - 1].seqNo == n && AllAsAppended(LogOf(Told(h, actions).log, ref), page[..n]))
  {
    c := VerifiesIffFromTheStart(h, actions, ref, after, page, past);
    WalkedIsOk(h, Told(h, actions), ref, after, page, Before(page, past));
    WalkSeq(h, LogOf(Told(h, actions).log, ref), page, Before(page, past));
  }

  lemma WalkSeq(h: Hasher, l: seq<Record>, page: seq<Record>, n: nat)
    requires 0 < n <= |page| && PageOk(h, l, page[..n])
    ensures FromTheStart(page[..n]) <==> page[n - 1].seqNo == n
  {
    assert Last(page[..n]) == page[n - 1];
    NoneMissingIff(h, l, page[..n]);
  }

  /** So a walk that begins after a row of the Ref, and finds any, is refused. */
  lemma LaterCursorsAreRefused(h: Hasher, actions: seq<Action>, ref: Ref, after: ID, page: seq<Record>, past: ID -> bool)
    returns (c: Option<Collision>)
    requires Separates(h) && Frames(h) && Sound(h, Told(h, actions))
    requires PageOf(Told(h, actions).db, ref, Some(after)) == Some(page) && Before(page, past) > 0
    requires after in Told(h, actions).db.byId && Told(h, actions).db.byId[after].ref == ref
    ensures c.Some? ==> Collides(h.sha, c.value)
    ensures c.None? ==> !RowsHold(h, page, Before(page, past))
  {
    c := VerifiesIffFromTheStart(h, actions, ref, Some(after), page, past);
    CursorIsPassed(h, Told(h, actions), ref, after, page);
    assert page[..Before(page, past)][0] == page[0];
  }

  lemma FirstAfterCursor(w: Chronicle, ref: Ref, after: ID, page: seq<Record>) returns (a: nat, b: nat)
    requires Indexed(w.db) && PageOf(w.db, ref, Some(after)) == Some(page) && page != []
    ensures a < b < |w.db.order| && w.db.order[a] == after && w.db.byId[w.db.order[b]] == page[0] && page[0].ref == ref
  {
    PageIsCut(w.db, ref, Some(after), page);
    a := IndexIn(w.db.order, after);
    b := FirstFrom(w.db, ref, a + 1, page[0]);
  }

  lemma FirstFrom(db: Db, ref: Ref, k: nat, r: Record) returns (b: nat)
    requires k <= |db.order| && forall i :: 0 <= i < |db.order| ==> db.order[i] in db.byId
    requires RowsFrom(db, ref, k) != [] && RowsFrom(db, ref, k)[0] == r
    ensures k <= b < |db.order| && db.byId[db.order[b]] == r && r.ref == ref
  {
    var ids := RefIds(db.byId, db.order[k..], ref);
    RefIdsListed(db.byId, db.order[k..], ref, ids[0]);
    var j :| 0 <= j < |db.order[k..]| && db.order[k..][j] == ids[0];
    b := k + j;
  }

  lemma CursorIsPassed(h: Hasher, w: Chronicle, ref: Ref, after: ID, page: seq<Record>)
    requires Sound(h, w) && PageOf(w.db, ref, Some(after)) == Some(page) && page != []
    requires after in w.db.byId && w.db.byId[after].ref == ref
    ensures page[0].seqNo > 1
  {
    var a, b := FirstAfterCursor(w, ref, after, page);
    assert Rooted(h, w.log, after, w.db.byId[after]);
    assert Follows(w.db.byId, w.db.order[a], w.db.order[b]);
  }
}
