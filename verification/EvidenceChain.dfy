/**
 The hash chain of evidence/chain.go: what a record and an event hash to, and
 what a chain of such hashes commits its holder to. SHA-256 and the JSON
 encoding are parameters; nothing is assumed about either except that a digest
 is 32 bytes, so every binding result is "equal, or here is a collision".
 */
module EvidenceChain {
  import opened Common

  newtype byte = x: int | 0 <= x < 256
  type Bytes = seq<byte>
  type Digest = d: Bytes | |d| == 32 witness seq(32, _ => 0)

  /** Nanoseconds since the zero time, and the zone the value prints in. */
  datatype Time = Time(ns: int, zone: int)

  const PRECISION := 1000

  /** UTC, rounded down to the microsecond. */
  function Canonical(t: Time): (c: Time)
    ensures c.zone == 0 && c.ns <= t.ns < c.ns + PRECISION && c.ns % PRECISION == 0
  {
    Time(t.ns - t.ns % PRECISION, 0)
  }

  /** What is read back from a store that persists at PRECISION is already canonical. */
  lemma CanonicalOnce(t: Time)
    ensures Canonical(Canonical(t)) == Canonical(t)
  {}

  type State = string
  datatype ID = ID(nanos: int, key: string)
  datatype Ref = Ref(tenantId: string, app: string, env: string)
  datatype Actor = Actor(id: string, kind: string, displayName: string, email: string)
  datatype Source = Source(repoUrl: string, ref: string, path: string, commitSha: string,
                           authorEmail: string, committerEmail: string)
  datatype Image = Image(requestedRef: string, admittedDigest: string)
  datatype Admission = Admission(allowed: bool, reason: string, message: string)
  datatype Observation = Observation(source: string, applicationUid: string, historyId: Option<int>,
                                     revision: string, operationPhase: string, at: Time)
  datatype Event = Event(from: State, to: State, at: Time, reason: string, observation: Observation,
                         prevHash: Bytes, hash: Bytes)
  datatype Record = Record(
    idempotencyKey: string, ref: Ref, actor: Actor, source: Source, image: Image, admission: Admission,
    note: string, id: ID, seqNo: int, state: State, initialState: State, createdAt: Time, updatedAt: Time,
    transitions: seq<Event>, prevHash: Bytes, hash: Bytes)

  datatype ChainedRecord = ChainedRecord(
    idempotencyKey: string, id: ID, seqNo: int, ref: Ref, actor: Actor, source: Source, image: Image,
    admission: Admission, note: string, initialState: State, createdAt: Time)
  datatype ChainedEvent = ChainedEvent(recordId: ID, event: Event)

  datatype Hasher = Hasher(sha: Bytes -> Digest, recordJson: ChainedRecord -> Bytes, eventJson: ChainedEvent -> Bytes)

  /** The immutable half of a record. */
  function Chained(r: Record): ChainedRecord {
    ChainedRecord(r.idempotencyKey, r.id, r.seqNo, r.ref, r.actor, r.source, r.image, r.admission, r.note,
                  r.initialState, Canonical(r.createdAt))
  }

  /** An event with its own hashes cleared and its times reduced. */
  function Bare(e: Event): Event {
    e.(prevHash := [], hash := [], at := Canonical(e.at),
       observation := e.observation.(at := Canonical(e.observation.at)))
  }

  function ChainRecord(h: Hasher, prev: Bytes, r: Record): Digest {
    h.sha(prev + h.recordJson(Chained(r)))
  }

  function ChainEvent(h: Hasher, prev: Bytes, recordId: ID, e: Event): Digest {
    h.sha(prev + h.eventJson(ChainedEvent(recordId, Bare(e))))
  }

  // ---- What a head commits to ----

  /** The head of a chain of encoded payloads laid on a base. */
  function Head(sha: Bytes -> Digest, base: Bytes, bodies: seq<Bytes>): Bytes {
    if bodies == [] then base else sha(Head(sha, base, Init(bodies)) + Last(bodies))
  }

  datatype Collision = Collision(x: Bytes, y: Bytes)

  ghost predicate Collides(sha: Bytes -> Digest, c: Collision) {
    c.x != c.y && sha(c.x) == sha(c.y)
  }

  lemma ConcatSplits(a: Bytes, x: Bytes, b: Bytes, y: Bytes)
    requires |a| == |b| && a + x == b + y
    ensures a == b && x == y
  {
    assert a == (a + x)[..|a|] && b == (b + y)[..|b|];
    assert x == (a + x)[|a|..] && y == (b + y)[|b|..];
  }

  /** Equal heads of equal length commit to equal payloads and equal bases, or yield a collision. */
  lemma {:induction false} HeadBinds(sha: Bytes -> Digest, base: Bytes, bodies: seq<Bytes>, base': Bytes, bodies': seq<Bytes>)
    returns (c: Option<Collision>)
    requires |base| == |base'| && |bodies| == |bodies'|
    requires Head(sha, base, bodies) == Head(sha, base', bodies')
    ensures c.None? ==> base == base' && bodies == bodies'
    ensures c.Some? ==> Collides(sha, c.value)
  {
    c := None;
    if bodies != [] {
      var p, p' := Head(sha, base, Init(bodies)), Head(sha, base', Init(bodies'));
      if p + Last(bodies) != p' + Last(bodies') {
        c := Some(Collision(p + Last(bodies), p' + Last(bodies')));
      } else {
        ConcatSplits(p, Last(bodies), p', Last(bodies'));
        c := HeadBinds(sha, base, Init(bodies), base', Init(bodies'));
      }
    }
  }

  // ---- Records and events as chains ----

  function RecordBodies(h: Hasher, rows: seq<Record>): (bs: seq<Bytes>)
    ensures |bs| == |rows| && forall i :: 0 <= i < |rows| ==> bs[i] == h.recordJson(Chained(rows[i]))
  {
    seq(|rows|, i requires 0 <= i < |rows| => h.recordJson(Chained(rows[i])))
  }

  function EventBodies(h: Hasher, id: ID, events: seq<Event>): (bs: seq<Bytes>)
    ensures |bs| == |events| && forall i :: 0 <= i < |events| ==> bs[i] == h.eventJson(ChainedEvent(id, Bare(events[i])))
  {
    seq(|events|, i requires 0 <= i < |events| => h.eventJson(ChainedEvent(id, Bare(events[i]))))
  }

  function PrevOf(rows: seq<Record>, i: nat): Bytes
    requires i < |rows|
  {
    if i == 0 then [] else rows[i - 1].hash
  }

  function PrevEventOf(base: Bytes, events: seq<Event>, i: nat): Bytes
    requires i < |events|
  {
    if i == 0 then base else events[i - 1].hash
  }

  /** Every stored record hash is what its fields and its predecessor hash to. */
  predicate RecordLinkedAt(h: Hasher, rows: seq<Record>, i: nat)
    requires i < |rows|
  {
    rows[i].hash == ChainRecord(h, PrevOf(rows, i), rows[i])
  }

  ghost predicate RecordsLinked(h: Hasher, rows: seq<Record>) {
    forall i :: 0 <= i < |rows| ==> RecordLinkedAt(h, rows, i)
  }

  predicate EventLinkedAt(h: Hasher, base: Bytes, id: ID, events: seq<Event>, i: nat)
    requires i < |events|
  {
    events[i].hash == ChainEvent(h, PrevEventOf(base, events, i), id, events[i])
  }

  ghost predicate EventsLinked(h: Hasher, base: Bytes, id: ID, events: seq<Event>) {
    forall i :: 0 <= i < |events| ==> EventLinkedAt(h, base, id, events, i)
  }

  lemma {:induction false} RecordHead(h: Hasher, rows: seq<Record>)
    requires RecordsLinked(h, rows) && rows != []
    ensures Last(rows).hash == Head(h.sha, [], RecordBodies(h, rows))
  {
    assert Init(RecordBodies(h, rows)) == RecordBodies(h, Init(rows));
    assert RecordLinkedAt(h, rows, |rows| - 1);
    if |rows| > 1 {
      assert forall i :: 0 <= i < |rows| - 1 ==> RecordLinkedAt(h, Init(rows), i) == RecordLinkedAt(h, rows, i);
      RecordHead(h, Init(rows));
    }
  }

  lemma {:induction false} EventHead(h: Hasher, base: Bytes, id: ID, events: seq<Event>)
    requires EventsLinked(h, base, id, events) && events != []
    ensures Last(events).hash == Head(h.sha, base, EventBodies(h, id, events))
  {
    assert Init(EventBodies(h, id, events)) == EventBodies(h, id, Init(events));
    assert EventLinkedAt(h, base, id, events, |events| - 1);
    if |events| > 1 {
      assert forall i :: 0 <= i < |events| - 1 ==>
          EventLinkedAt(h, base, id, Init(events), i) == EventLinkedAt(h, base, id, events, i);
      EventHead(h, base, id, Init(events));
    }
  }

  /** The JSON encodings tell different payloads apart. */
  ghost predicate Separates(h: Hasher) {
    && (forall a, b :: h.recordJson(a) == h.recordJson(b) ==> a == b)
    && (forall a, b :: h.eventJson(a) == h.eventJson(b) ==> a == b)
  }

  /**
   Two chains of one Ref with equal length and equal last hash encode record for
   record alike, or the proof hands over two distinct inputs with one hash. With
   an encoding that separates payloads, every chained field agrees.
   */
  lemma RecordChainBinds(h: Hasher, a: seq<Record>, b: seq<Record>) returns (c: Option<Collision>)
    requires RecordsLinked(h, a) && RecordsLinked(h, b) && |a| == |b| > 0
    requires Last(a).hash == Last(b).hash
    ensures c.Some? ==> Collides(h.sha, c.value)
    ensures c.None? ==> forall i :: 0 <= i < |a| ==> h.recordJson(Chained(a[i])) == h.recordJson(Chained(b[i]))
    ensures c.None? && Separates(h) ==> forall i :: 0 <= i < |a| ==> Chained(a[i]) == Chained(b[i])
  {
    RecordHead(h, a);
    RecordHead(h, b);
    c := HeadBinds(h.sha, [], RecordBodies(h, a), [], RecordBodies(h, b));
    if c.None? {
      forall i | 0 <= i < |a| ensures h.recordJson(Chained(a[i])) == h.recordJson(Chained(b[i])) {
        assert RecordBodies(h, a)[i] == RecordBodies(h, b)[i];
      }
    }
  }

  /** The same for a record's events; the head commits to the record's own hash as well. */
  lemma EventChainBinds(h: Hasher, base: Digest, id: ID, events: seq<Event>, base': Digest, id': ID, events': seq<Event>)
    returns (c: Option<Collision>)
    requires EventsLinked(h, base, id, events) && EventsLinked(h, base', id', events')
    requires |events| == |events'| > 0 && Last(events).hash == Last(events').hash
    ensures c.Some? ==> Collides(h.sha, c.value)
    ensures c.None? ==> base == base'
    ensures c.None? && Separates(h) ==>
              id == id' && forall i :: 0 <= i < |events| ==> Bare(events[i]) == Bare(events'[i])
  {
    EventHead(h, base, id, events);
    EventHead(h, base', id', events');
    c := HeadBinds(h.sha, base, EventBodies(h, id, events), base', EventBodies(h, id', events'));
    if c.None? && Separates(h) {
      forall i | 0 <= i < |events| ensures id == id' && Bare(events[i]) == Bare(events'[i]) {
        assert EventBodies(h, id, events)[i] == EventBodies(h, id', events')[i];
      }
    }
  }

  /** One event hash commits to the events before it, to its record and to every record before that. */
  lemma EventHashBindsTheHistory(h: Hasher, a: seq<Record>, b: seq<Record>) returns (c: Option<Collision>)
    requires RecordsLinked(h, a) && RecordsLinked(h, b) && |a| == |b| > 0 && Separates(h)
    requires EventsLinked(h, Last(a).hash, Last(a).id, Last(a).transitions)
    requires EventsLinked(h, Last(b).hash, Last(b).id, Last(b).transitions)
    requires |Last(a).transitions| == |Last(b).transitions| > 0
    requires Last(Last(a).transitions).hash == Last(Last(b).transitions).hash
    ensures c.Some? ==> Collides(h.sha, c.value)
    ensures c.None? ==> forall i :: 0 <= i < |a| ==> Chained(a[i]) == Chained(b[i])
    ensures c.None? ==> forall i :: 0 <= i < |Last(a).transitions| ==>
                                      Bare(Last(a).transitions[i]) == Bare(Last(b).transitions[i])
  {
    assert RecordLinkedAt(h, a, |a| - 1) && RecordLinkedAt(h, b, |b| - 1);
    c := EventChainBinds(h, Last(a).hash, Last(a).id, Last(a).transitions,
                         Last(b).hash, Last(b).id, Last(b).transitions);
    if c.None? {
      c := RecordChainBinds(h, a, b);
    }
  }

  // ---- Verification ----

  datatype Proof = Proof(fromSeq: int, toSeq: int, records: nat, valid: bool, brokenAt: int, rootHash: Bytes)

  /** Everything the walk checks about one row. */
  ghost predicate RowHolds(h: Hasher, rows: seq<Record>, i: nat)
    requires i < |rows|
  {
    RecordLinkedAt(h, rows, i) && EventsLinked(h, rows[i].hash, rows[i].id, rows[i].transitions)
  }

  ghost predicate RowsHold(h: Hasher, rows: seq<Record>, n: nat)
    requires n <= |rows|
  {
    forall i :: 0 <= i < n ==> RowHolds(h, rows, i)
  }

  /** Re-derives a record's event sub-chain. */
  method VerifyEvents(h: Hasher, base: Bytes, id: ID, events: seq<Event>) returns (ok: bool)
    ensures ok <==> EventsLinked(h, base, id, events)
  {
    var prev := base;
    for i := 0 to |events|
      invariant prev == if i == 0 then base else events[i - 1].hash
      invariant forall k :: 0 <= k < i ==> EventLinkedAt(h, base, id, events, k)
    {
      if ChainEvent(h, prev, id, events[i]) != events[i].hash {
        assert !EventLinkedAt(h, base, id, events, i);
        return false;
      }
      prev := events[i].hash;
    }
    return true;
  }

  /** How many rows come before the first one past the end of the range. */
  function Before(rows: seq<Record>, past: ID -> bool): (n: nat)
    ensures n <= |rows| && (forall i :: 0 <= i < n ==> !past(rows[i].id)) && (n < |rows| ==> past(rows[n].id))
  {
    if rows == [] || past(rows[0].id) then 0 else 1 + Before(rows[1..], past)
  }

  /** The walk of Verify over one page of rows, oldest first, up to the first one past the end of the range. */
  method VerifyRows(h: Hasher, rows: seq<Record>, past: ID -> bool) returns (p: Proof)
    ensures p.valid <==> RowsHold(h, rows, Before(rows, past))
    ensures p.records <= Before(rows, past) && RowsHold(h, rows, p.records)
    ensures p.valid ==> p.records == Before(rows, past) && p.brokenAt == 0
    ensures !p.valid ==> p.records < Before(rows, past) && p.brokenAt == rows[p.records].seqNo && !RowHolds(h, rows, p.records)
    ensures p.valid || !RecordLinkedAt(h, rows, p.records) ==> p.rootHash == Head(h.sha, [], RecordBodies(h, rows[..p.records]))
  {
    p := Proof(0, 0, 0, true, 0, []);
    var prev: Bytes := [];
    var i := 0;
    while i < |rows| && !past(rows[i].id)
      invariant i <= Before(rows, past)
      invariant prev == if i == 0 then [] else rows[i - 1].hash
      invariant p.valid && p.brokenAt == 0 && p.records == i && RowsHold(h, rows, i)
      decreases |rows| - i
    {
      var r := rows[i];
      if ChainRecord(h, prev, r) != r.hash {
        assert !RowHolds(h, rows, i);
        RootOf(h, rows, i, prev);
        p := p.(valid := false, brokenAt := r.seqNo, rootHash := prev);
        return;
      }
      var ok := VerifyEvents(h, r.hash, r.id, r.transitions);
      if !ok {
        assert !RowHolds(h, rows, i) && RecordLinkedAt(h, rows, i);
        p := p.(valid := false, brokenAt := r.seqNo);
        return;
      }
      assert RowHolds(h, rows, i);
      prev := r.hash;
      p := p.(records := p.records + 1, toSeq := r.seqNo, fromSeq := if p.fromSeq == 0 then r.seqNo else p.fromSeq);
      i := i + 1;
    }
    RootOf(h, rows, i, prev);
    p := p.(rootHash := prev);
  }

  lemma RootOf(h: Hasher, rows: seq<Record>, n: nat, root: Bytes)
    requires n <= |rows| && RowsHold(h, rows, n) && root == if n == 0 then [] else rows[n - 1].hash
    ensures root == Head(h.sha, [], RecordBodies(h, rows[..n]))
  {
    if n > 0 {
      forall i | 0 <= i < n ensures RecordLinkedAt(h, rows[..n], i) {
        assert RowHolds(h, rows, i);
      }
      RecordHead(h, rows[..n]);
    }
  }
}
