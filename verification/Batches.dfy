/**
 What one batch writes (the row-building loop of `_commit_locked` in ingest/pipeline.py): the event
 rows, the per-area counts and the last time of each entity, with the counting laws they obey.
 */
module Batches {
  import opened Prelude
  import opened Counters
  import opened Store
  import opened Topology

  datatype HAEvent = HAEvent(
    ts: int, entityId: string, eventType: string, oldState: Option<string>, newState: Option<string>,
    contextUserId: Option<string>, contextParentId: Option<string>)

  /** A buffered event with the snapshot id looked up when it was submitted. */
  datatype Pending = Pending(ev: HAEvent, sid: int)

  function AreaOf(idx: Index, id: string): Option<string> {
    if id in idx then idx[id].areaId else None
  }

  /** The snapshot id is the one taken at submit; area, device and class come from the index at commit. */
  function RowOf(p: Pending, idx: Index, rcv: int): EventRow {
    var ev := p.ev;
    var ref := RefIn(idx, ev.entityId);
    EventRow(ev.ts, rcv, ev.entityId, ev.eventType, ev.oldState, ev.newState,
             ev.contextUserId, ev.contextParentId,
             AreaOf(idx, ev.entityId),
             if ref.Some? then ref.value.deviceId else None,
             if ref.Some? then ref.value.deviceClass else None,
             p.sid)
  }

  /** Every column of a row: the event's own, the clock reading, and what the index says of the entity. */
  lemma RowIs(p: Pending, idx: Index, rcv: int)
    ensures var r := RowOf(p, idx, rcv);
            && r.ts == p.ev.ts && r.receivedAt == rcv && r.entityId == p.ev.entityId && r.eventType == p.ev.eventType
            && r.oldState == p.ev.oldState && r.newState == p.ev.newState
            && r.contextUserId == p.ev.contextUserId && r.contextParentId == p.ev.contextParentId
            && r.snapshotId == p.sid
            && (p.ev.entityId in idx ==>
                  var ref := idx[p.ev.entityId];
                  r.areaId == ref.areaId && r.deviceId == ref.deviceId && r.deviceClass == ref.deviceClass)
            && (p.ev.entityId !in idx ==> r.areaId == None && r.deviceId == None && r.deviceClass == None)
  {
  }

  function RowsOf(buf: seq<Pending>, idx: Index, rcv: int): (rows: seq<EventRow>)
    ensures |rows| == |buf|
    ensures forall i :: 0 <= i < |buf| ==> rows[i] == RowOf(buf[i], idx, rcv)
  {
    seq(|buf|, i requires 0 <= i < |buf| => RowOf(buf[i], idx, rcv))
  }

  /** The pending event a stored row was made from. */
  function PendingOf(r: EventRow): Pending {
    Pending(HAEvent(r.ts, r.entityId, r.eventType, r.oldState, r.newState, r.contextUserId, r.contextParentId),
            r.snapshotId)
  }

  lemma RowRemembersPending(p: Pending, idx: Index, rcv: int)
    ensures PendingOf(RowOf(p, idx, rcv)) == p
  {
  }

  function PerArea(buf: seq<Pending>, idx: Index): map<CounterKey, int> {
    if buf == [] then map[]
    else
      var front := PerArea(buf[..|buf| - 1], idx);
      var ev := buf[|buf| - 1].ev;
      var area := AreaOf(idx, ev.entityId);
      if Truthy(area) then Increment(front, (area.value, BucketFor(ev.ts)), 1) else front
  }

  function LastTs(buf: seq<Pending>): map<string, int> {
    if buf == [] then map[]
    else
      var ev := buf[|buf| - 1].ev;
      LastTs(buf[..|buf| - 1])[ev.entityId := ev.ts]
  }

  // ---------- counting stored rows ----------

  /** The row belongs to a named area and one of its hours. */
  predicate Hits(r: EventRow, k: CounterKey) {
    k.0 != "" && r.areaId == Some(k.0) && BucketFor(r.ts) == k.1
  }

  function CountKey(rows: seq<EventRow>, k: CounterKey): (n: nat)
    ensures n <= |rows|
  {
    if rows == [] then 0
    else CountKey(rows[..|rows| - 1], k) + if Hits(rows[|rows| - 1], k) then 1 else 0
  }

  /** The rows of the named area in the hour from h * 3 600 000 ms on. */
  lemma {:induction false} CountKeyIs(rows: seq<EventRow>, area: string, h: int, n: nat)
    requires n <= |rows|
    ensures CountKey(rows[..n], (area, h))
            == Tally(n, i => 0 <= i < |rows| && area != "" && rows[i].areaId == Some(area)
                          && h * 3_600_000 <= rows[i].ts < (h + 1) * 3_600_000)
  {
    if n > 0 {
      CountKeyIs(rows, area, h, n - 1);
      TallyNext(n - 1, i => 0 <= i < |rows| && area != "" && rows[i].areaId == Some(area)
                          && h * 3_600_000 <= rows[i].ts < (h + 1) * 3_600_000);
      BucketIsHour(rows[n - 1].ts, h);
      assert rows[..n][..n - 1] == rows[..n - 1];
    }
  }

  lemma {:induction false} CountKeyConcat(a: seq<EventRow>, b: seq<EventRow>, k: CounterKey)
    ensures CountKey(a + b, k) == CountKey(a, k) + CountKey(b, k)
  {
    if b == [] {
      assert a + b == a;
    } else {
      assert (a + b)[..|a + b| - 1] == a + b[..|b| - 1];
      CountKeyConcat(a, b[..|b| - 1], k);
    }
  }

  /** The per-area dictionary counts the batch's own rows. */
  lemma {:induction false} PerAreaCounts(buf: seq<Pending>, idx: Index, rcv: int, k: CounterKey)
    ensures Get(PerArea(buf, idx), k) == CountKey(RowsOf(buf, idx, rcv), k)
  {
    if buf != [] {
      var n := |buf| - 1;
      PerAreaCounts(buf[..n], idx, rcv, k);
      assert RowsOf(buf, idx, rcv)[..n] == RowsOf(buf[..n], idx, rcv);
    }
  }

  // ---------- last event of an entity ----------

  /** Time of the last row of the entity, or `d` if it has none. */
  function LastRowTs(rows: seq<EventRow>, id: string, d: int): int {
    if rows == [] then d
    else if rows[|rows| - 1].entityId == id then rows[|rows| - 1].ts
    else LastRowTs(rows[..|rows| - 1], id, d)
  }

  predicate Mentions(rows: seq<EventRow>, id: string) {
    exists i :: 0 <= i < |rows| && rows[i].entityId == id
  }

  lemma {:induction false} LastRowTsConcat(a: seq<EventRow>, b: seq<EventRow>, id: string, d: int)
    ensures LastRowTs(a + b, id, d) == LastRowTs(b, id, LastRowTs(a, id, d))
  {
    if b == [] {
      assert a + b == a;
    } else {
      assert (a + b)[..|a + b| - 1] == a + b[..|b| - 1];
      LastRowTsConcat(a, b[..|b| - 1], id, d);
    }
  }

  /** The per-entity dictionary holds the last time of exactly the batch's entities. */
  lemma {:induction false} LastTsIs(buf: seq<Pending>, idx: Index, rcv: int, id: string, d: int)
    ensures var rows := RowsOf(buf, idx, rcv);
            && (id in LastTs(buf) <==> Mentions(rows, id))
            && LastRowTs(rows, id, d) == if id in LastTs(buf) then LastTs(buf)[id] else d
  {
    if buf != [] {
      var n := |buf| - 1;
      LastTsIs(buf[..n], idx, rcv, id, d);
      var rows := RowsOf(buf, idx, rcv);
      assert rows[..n] == RowsOf(buf[..n], idx, rcv);
      if rows[n].entityId != id {
        assert forall i :: 0 <= i < n ==> rows[..n][i] == rows[i];
        if Mentions(rows[..n], id) {
          var i :| 0 <= i < n && rows[..n][i].entityId == id;
          assert rows[i].entityId == id;
        }
      }
    }
  }
}
