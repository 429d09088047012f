/**
 The SQLite store (store/dao.py over the schema in store/migrations/001_initial.sql):
 tables as maps and sequences, each DAO method one atomic table update that may fail.
 */
module Store {
  import opened Prelude

  /** `name` is None when the registry sent an explicit null, which the schema's NOT NULL refuses. */
  datatype AreaRow = AreaRow(
    areaId: string, name: Option<string>, floorId: Option<string>, icon: Option<string>, aliases: string,
    snapshotId: int, firstSeenAt: int, lastSeenAt: int)

  datatype DeviceRow = DeviceRow(
    deviceId: string, name: Option<string>, manufacturer: Option<string>, model: Option<string>,
    areaId: Option<string>, swVersion: Option<string>,
    snapshotId: int, firstSeenAt: int, lastSeenAt: int)

  datatype EntityRow = EntityRow(
    entityId: string, friendlyName: Option<string>, domain: string, deviceClass: Option<string>,
    deviceId: Option<string>, areaId: Option<string>, disabled: bool, snapshotId: int,
    firstSeenAt: int, lastSeenAt: int, eventCount24h: int, totalEventCount: int)

  datatype EventRow = EventRow(
    ts: int, receivedAt: int, entityId: string, eventType: string,
    oldState: Option<string>, newState: Option<string>,
    contextUserId: Option<string>, contextParentId: Option<string>,
    areaId: Option<string>, deviceId: Option<string>, deviceClass: Option<string>, snapshotId: int)

  type CounterKey = (string, int)

  /**
   The whole store as a value. Nothing is ever deleted from `events` and its key is
   AUTOINCREMENT, so the row at position i has event_id i + 1.
   */
  datatype Tables = Tables(
    areas: map<string, AreaRow>, devices: map<string, DeviceRow>, entities: map<string, EntityRow>,
    events: seq<EventRow>, counters: map<CounterKey, int>, drops: map<int, int>)

  const EMPTY_TABLES := Tables(map[], map[], map[], [], map[], map[])

  // ---------- upserts ----------

  function UpsertArea(t: map<string, AreaRow>, r: AreaRow): map<string, AreaRow> {
    if r.areaId in t then t[r.areaId := r.(firstSeenAt := t[r.areaId].firstSeenAt)] else t[r.areaId := r]
  }

  function UpsertAreas(t: map<string, AreaRow>, rows: seq<AreaRow>): map<string, AreaRow> {
    if rows == [] then t
    else UpsertArea(UpsertAreas(t, rows[..|rows| - 1]), rows[|rows| - 1])
  }

  predicate LastForArea(rows: seq<AreaRow>, id: string, i: int) {
    0 <= i < |rows| && rows[i].areaId == id && forall j :: i < j < |rows| ==> rows[j].areaId != id
  }

  /** Areas absent from the batch are untouched. */
  lemma {:induction false} UpsertAreasOthers(t: map<string, AreaRow>, rows: seq<AreaRow>, id: string)
    requires forall i :: 0 <= i < |rows| ==> rows[i].areaId != id
    ensures id in UpsertAreas(t, rows) <==> id in t
    ensures id in t ==> UpsertAreas(t, rows)[id] == t[id]
  {
    if rows != [] {
      UpsertAreasOthers(t, rows[..|rows| - 1], id);
    }
  }

  /** The first-seen time is the stored row's, or else that of the batch's first row for the area. */
  lemma {:induction false} UpsertAreasFirst(t: map<string, AreaRow>, rows: seq<AreaRow>, id: string, first: int)
    requires 0 <= first < |rows| && rows[first].areaId == id && forall j :: 0 <= j < first ==> rows[j].areaId != id
    ensures id in UpsertAreas(t, rows)
    ensures UpsertAreas(t, rows)[id].firstSeenAt == if id in t then t[id].firstSeenAt else rows[first].firstSeenAt
  {
    var front := rows[..|rows| - 1];
    if first < |front| {
      UpsertAreasFirst(t, front, id, first);
    } else {
      UpsertAreasOthers(t, front, id);
    }
  }

  /** The last row for an area decides everything but its first-seen time. */
  lemma {:induction false} UpsertAreasLast(t: map<string, AreaRow>, rows: seq<AreaRow>, id: string, i: int)
    requires LastForArea(rows, id, i)
    ensures id in UpsertAreas(t, rows)
    ensures UpsertAreas(t, rows)[id].(firstSeenAt := 0) == rows[i].(firstSeenAt := 0)
  {
    var front := rows[..|rows| - 1];
    if i < |front| {
      assert rows[|rows| - 1].areaId != id;
      UpsertAreasLast(t, front, id, i);
    }
  }

  function UpsertDevice(t: map<string, DeviceRow>, r: DeviceRow): map<string, DeviceRow> {
    if r.deviceId in t then t[r.deviceId := r.(firstSeenAt := t[r.deviceId].firstSeenAt)] else t[r.deviceId := r]
  }

  function UpsertDevices(t: map<string, DeviceRow>, rows: seq<DeviceRow>): map<string, DeviceRow> {
    if rows == [] then t
    else UpsertDevice(UpsertDevices(t, rows[..|rows| - 1]), rows[|rows| - 1])
  }

  predicate LastForDevice(rows: seq<DeviceRow>, id: string, i: int) {
    0 <= i < |rows| && rows[i].deviceId == id && forall j :: i < j < |rows| ==> rows[j].deviceId != id
  }

  /** Devices absent from the batch are untouched. */
  lemma {:induction false} UpsertDevicesOthers(t: map<string, DeviceRow>, rows: seq<DeviceRow>, id: string)
    requires forall i :: 0 <= i < |rows| ==> rows[i].deviceId != id
    ensures id in UpsertDevices(t, rows) <==> id in t
    ensures id in t ==> UpsertDevices(t, rows)[id] == t[id]
  {
    if rows != [] {
      UpsertDevicesOthers(t, rows[..|rows| - 1], id);
    }
  }

  /** The first-seen time is the stored row's, or else that of the batch's first row for the device. */
  lemma {:induction false} UpsertDevicesFirst(t: map<string, DeviceRow>, rows: seq<DeviceRow>, id: string, first: int)
    requires 0 <= first < |rows| && rows[first].deviceId == id && forall j :: 0 <= j < first ==> rows[j].deviceId != id
    ensures id in UpsertDevices(t, rows)
    ensures UpsertDevices(t, rows)[id].firstSeenAt == if id in t then t[id].firstSeenAt else rows[first].firstSeenAt
  {
    var front := rows[..|rows| - 1];
    if first < |front| {
      UpsertDevicesFirst(t, front, id, first);
    } else {
      UpsertDevicesOthers(t, front, id);
    }
  }

  /** The last row for a device decides everything but its first-seen time. */
  lemma {:induction false} UpsertDevicesLast(t: map<string, DeviceRow>, rows: seq<DeviceRow>, id: string, i: int)
    requires LastForDevice(rows, id, i)
    ensures id in UpsertDevices(t, rows)
    ensures UpsertDevices(t, rows)[id].(firstSeenAt := 0) == rows[i].(firstSeenAt := 0)
  {
    var front := rows[..|rows| - 1];
    if i < |front| {
      assert rows[|rows| - 1].deviceId != id;
      UpsertDevicesLast(t, front, id, i);
    }
  }

  /** On conflict the counts and `first_seen_at` of the stored row survive. */
  function UpsertEntity(t: map<string, EntityRow>, r: EntityRow): map<string, EntityRow> {
    if r.entityId in t then
      var q := t[r.entityId];
      t[r.entityId := r.(firstSeenAt := q.firstSeenAt, eventCount24h := q.eventCount24h,
                         totalEventCount := q.totalEventCount)]
    else
      t[r.entityId := r]
  }

  function UpsertEntities(t: map<string, EntityRow>, rows: seq<EntityRow>): map<string, EntityRow> {
    if rows == [] then t
    else UpsertEntity(UpsertEntities(t, rows[..|rows| - 1]), rows[|rows| - 1])
  }

  /** The row of `rows` that wins for `id`: the last one carrying it. */
  predicate LastFor(rows: seq<EntityRow>, id: string, i: int) {
    0 <= i < |rows| && rows[i].entityId == id && forall j :: i < j < |rows| ==> rows[j].entityId != id
  }

  /** Registry data, as opposed to counts and dates. */
  predicate SameRegistryData(q: EntityRow, r: EntityRow) {
    q.(firstSeenAt := 0, eventCount24h := 0, totalEventCount := 0)
    == r.(firstSeenAt := 0, eventCount24h := 0, totalEventCount := 0)
  }

  /** Entities absent from the batch are untouched. */
  lemma {:induction false} UpsertEntitiesOthers(t: map<string, EntityRow>, rows: seq<EntityRow>, id: string)
    requires forall i :: 0 <= i < |rows| ==> rows[i].entityId != id
    ensures id in UpsertEntities(t, rows) <==> id in t
    ensures id in t ==> UpsertEntities(t, rows)[id] == t[id]
  {
    if rows != [] {
      UpsertEntitiesOthers(t, rows[..|rows| - 1], id);
    }
  }

  /**
   A bulk upsert in terms of its input alone: the last row for an id decides the registry data,
   while counts and `first_seen_at` come from the stored row if there was one.
   */
  lemma {:induction false} UpsertEntitiesLast(t: map<string, EntityRow>, rows: seq<EntityRow>, id: string, i: int)
    requires LastFor(rows, id, i)
    ensures id in UpsertEntities(t, rows)
    ensures SameRegistryData(UpsertEntities(t, rows)[id], rows[i])
    ensures id in t ==>
              var q := UpsertEntities(t, rows)[id];
              && q.firstSeenAt == t[id].firstSeenAt
              && q.eventCount24h == t[id].eventCount24h
              && q.totalEventCount == t[id].totalEventCount
  {
    var front := rows[..|rows| - 1];
    if i < |front| {
      assert rows[|rows| - 1].entityId != id;
      UpsertEntitiesLast(t, front, id, i);
    } else if id in t {
      UpsertEntitiesKeep(t, front, id);
    }
  }

  /** No upsert resets the counts or `first_seen_at` of an entity that already has a row. */
  lemma {:induction false} UpsertEntitiesKeep(t: map<string, EntityRow>, rows: seq<EntityRow>, id: string)
    requires id in t
    ensures id in UpsertEntities(t, rows)
    ensures var q := UpsertEntities(t, rows)[id];
            && q.firstSeenAt == t[id].firstSeenAt
            && q.eventCount24h == t[id].eventCount24h
            && q.totalEventCount == t[id].totalEventCount
  {
    if rows != [] {
      UpsertEntitiesKeep(t, rows[..|rows| - 1], id);
    }
  }

  /** A row created by a batch starts from the counts of one of that batch's rows. */
  lemma {:induction false} UpsertEntitiesFresh(t: map<string, EntityRow>, rows: seq<EntityRow>, id: string)
    requires id !in t && id in UpsertEntities(t, rows)
    ensures exists i :: 0 <= i < |rows| && rows[i].entityId == id
                        && UpsertEntities(t, rows)[id].totalEventCount == rows[i].totalEventCount
                        && UpsertEntities(t, rows)[id].firstSeenAt == rows[i].firstSeenAt
  {
    var n := |rows| - 1;
    var front := UpsertEntities(t, rows[..n]);
    if id in front {
      UpsertEntitiesFresh(t, rows[..n], id);
      var i :| 0 <= i < n && rows[..n][i].entityId == id
               && front[id].totalEventCount == rows[..n][i].totalEventCount
               && front[id].firstSeenAt == rows[..n][i].firstSeenAt;
      assert rows[i].entityId == id;
    } else {
      assert rows[n].entityId == id;
    }
  }

  // ---------- counters and bumps ----------

  function Increment<K(==)>(m: map<K, int>, k: K, amount: int): map<K, int> {
    m[k := Get(m, k) + amount]
  }

  /** `UPDATE ... WHERE entity_id = ?`: no row, no effect. */
  function Bump(t: map<string, EntityRow>, id: string, lastSeenAt: int): map<string, EntityRow> {
    if id in t then
      var q := t[id];
      t[id := q.(eventCount24h := q.eventCount24h + 1, totalEventCount := q.totalEventCount + 1,
                 lastSeenAt := lastSeenAt)]
    else t
  }

  /** One counter grows by the amount, from 0 if it was not there; the others stay. */
  lemma IncrementIs<K>(m: map<K, int>, k: K, amount: int, j: K)
    ensures var n := Increment(m, k, amount);
            && n.Keys == m.Keys + {k}
            && n[k] == (if k in m then m[k] else 0) + amount
            && (j in m && j != k ==> n[j] == m[j])
  {
  }

  /** An existing row counts one event more on both counts and is last seen at the given time; the rest stays. */
  lemma BumpIs(t: map<string, EntityRow>, id: string, lastSeenAt: int, other: string)
    ensures var u := Bump(t, id, lastSeenAt);
            && u.Keys == t.Keys
            && (id in t ==>
                  && u[id].eventCount24h == t[id].eventCount24h + 1 && u[id].totalEventCount == t[id].totalEventCount + 1
                  && u[id].lastSeenAt == lastSeenAt
                  && u[id] == t[id].(eventCount24h := u[id].eventCount24h, totalEventCount := u[id].totalEventCount,
                                     lastSeenAt := u[id].lastSeenAt))
            && (other in t && other != id ==> u[other] == t[other])
  {
  }

  // ---------- event pages ----------

  datatype Filter = Filter(
    entityId: Option<string>, areaId: Option<string>, sinceTs: Option<int>, untilTs: Option<int>)

  /** What a caller of `list_events` asks for; an empty id means no restriction. */
  predicate Selected(r: EventRow, f: Filter) {
    && (Truthy(f.entityId) ==> r.entityId == f.entityId.value)
    && (Truthy(f.areaId) ==> r.areaId == f.areaId)
    && (f.sinceTs.Some? ==> r.ts >= f.sinceTs.value)
    && (f.untilTs.Some? ==> r.ts <= f.untilTs.value)
  }

  /** An absent or empty id does not restrict; both time bounds are inclusive. */
  lemma SelectsEvents(r: EventRow, f: Filter)
    ensures Selected(r, f) <==>
              && (f.entityId == None || f.entityId == Some("") || Some(r.entityId) == f.entityId)
              && (f.areaId == None || f.areaId == Some("") || r.areaId == f.areaId)
              && (f.sinceTs == None || f.sinceTs.value <= r.ts)
              && (f.untilTs == None || r.ts <= f.untilTs.value)
  {
  }

  /** How many of the n oldest rows lie below the cursor. */
  function Visible(cursor: Option<int>, n: nat): nat {
    if cursor.None? || cursor.value > n then n else if cursor.value <= 0 then 0 else cursor.value - 1
  }

  /** Event ids of the selected rows among the first `hi`, newest first. */
  function DescIds(events: seq<EventRow>, f: Filter, hi: nat): seq<int>
    requires hi <= |events|
  {
    if hi == 0 then []
    else (if Selected(events[hi - 1], f) then [hi] else []) + DescIds(events, f, hi - 1)
  }

  function Lower(a: nat, b: nat): nat {
    if a <= b then a else b
  }

  /** One step of a newest-first scan that skips rows at or above the cursor. */
  lemma ScanStep(events: seq<EventRow>, f: Filter, cursor: Option<int>, i: nat)
    requires 0 < i <= |events|
    ensures var vis := Visible(cursor, |events|);
            DescIds(events, f, Lower(i, vis))
            == (if Selected(events[i - 1], f) && (cursor.Some? ==> i < cursor.value) then [i] else [])
               + DescIds(events, f, Lower(i - 1, vis))
  {
  }

  /** SQL LIMIT: a negative limit is no limit. */
  function Limited<T>(s: seq<T>, limit: int): seq<T> {
    if limit < 0 then s else Take(s, limit)
  }

  function Page(events: seq<EventRow>, f: Filter, cursor: Option<int>, limit: int): seq<int> {
    Limited(DescIds(events, f, Visible(cursor, |events|)), limit)
  }

  /** One conjunct of the WHERE clause that `list_events` assembles. */
  datatype Clause =
    | EntityIs(id: string)
    | AreaIs(id: string)
    | TsAtLeast(ts: int)
    | TsAtMost(ts: int)
    | IdBelow(cursor: int)

  predicate Holds(c: Clause, id: int, r: EventRow) {
    match c
    case EntityIs(e) => r.entityId == e
    case AreaIs(a) => r.areaId == Some(a)
    case TsAtLeast(t) => r.ts >= t
    case TsAtMost(t) => r.ts <= t
    case IdBelow(k) => id < k
  }

  predicate AllHold(cs: seq<Clause>, id: int, r: EventRow) {
    forall i :: 0 <= i < |cs| ==> Holds(cs[i], id, r)
  }

  lemma AllHoldAppend(cs: seq<Clause>, c: Clause, id: int, r: EventRow)
    ensures AllHold(cs + [c], id, r) <==> AllHold(cs, id, r) && Holds(c, id, r)
  {
    assert (cs + [c])[|cs|] == c;
    assert forall i :: 0 <= i < |cs| ==> (cs + [c])[i] == cs[i];
  }

  method AddClause(cs: seq<Clause>, c: Clause) returns (more: seq<Clause>)
    ensures forall id, r :: AllHold(more, id, r) <==> AllHold(cs, id, r) && Holds(c, id, r)
  {
    more := cs + [c];
    forall id, r ensures AllHold(more, id, r) <==> AllHold(cs, id, r) && Holds(c, id, r) {
      AllHoldAppend(cs, c, id, r);
    }
  }

  /** The WHERE clause, assembled piece by piece, says what the caller asked for. */
  method WhereClause(f: Filter, cursor: Option<int>) returns (clauses: seq<Clause>)
    ensures forall id, r ::
              AllHold(clauses, id, r) <==> Selected(r, f) && (cursor.Some? ==> id < cursor.value)
  {
    clauses := [];
    if Truthy(f.entityId) { clauses := AddClause(clauses, EntityIs(f.entityId.value)); }
    if Truthy(f.areaId) { clauses := AddClause(clauses, AreaIs(f.areaId.value)); }
    if f.sinceTs.Some? { clauses := AddClause(clauses, TsAtLeast(f.sinceTs.value)); }
    if f.untilTs.Some? { clauses := AddClause(clauses, TsAtMost(f.untilTs.value)); }
    if cursor.Some? { clauses := AddClause(clauses, IdBelow(cursor.value)); }
  }

  /** `rows` are the stored rows with these ids, in this order. */
  ghost predicate RowsAt(events: seq<EventRow>, ids: seq<int>, rows: seq<EventRow>) {
    && |rows| == |ids|
    && forall i :: 0 <= i < |ids| ==> 1 <= ids[i] <= |events| && rows[i] == events[ids[i] - 1]
  }

  lemma ScanTakes(events: seq<EventRow>, f: Filter, cursor: Option<int>, i: nat, ids: seq<int>, rows: seq<EventRow>)
    requires 0 < i <= |events| && RowsAt(events, ids, rows)
    requires Selected(events[i - 1], f) && (cursor.Some? ==> i < cursor.value)
    ensures RowsAt(events, ids + [i], rows + [events[i - 1]])
    ensures var vis := Visible(cursor, |events|);
            ids + DescIds(events, f, Lower(i, vis)) == (ids + [i]) + DescIds(events, f, Lower(i - 1, vis))
  {
    ScanStep(events, f, cursor, i);
  }

  lemma ScanSkips(events: seq<EventRow>, f: Filter, cursor: Option<int>, i: nat)
    requires 0 < i <= |events|
    requires !(Selected(events[i - 1], f) && (cursor.Some? ==> i < cursor.value))
    ensures var vis := Visible(cursor, |events|);
            DescIds(events, f, Lower(i, vis)) == DescIds(events, f, Lower(i - 1, vis))
  {
    ScanStep(events, f, cursor, i);
    assert [] + DescIds(events, f, Lower(i - 1, Visible(cursor, |events|)))
           == DescIds(events, f, Lower(i - 1, Visible(cursor, |events|)));
  }

  /** A prefix of the listing that is all of it, or as long as the limit, is the page. */
  lemma ScanEnds(ids: seq<int>, rest: seq<int>, limit: int)
    requires limit >= 0 ==> |ids| <= limit
    requires rest == [] || |ids| == limit
    ensures ids == Limited(ids + rest, limit)
  {
  }

  /** Scans from the newest row down, keeping rows that satisfy the clauses until the limit is reached. */
  method Scan(events: seq<EventRow>, clauses: seq<Clause>, limit: int, ghost f: Filter, ghost cursor: Option<int>)
    returns (rows: seq<EventRow>)
    requires forall id, r ::
               AllHold(clauses, id, r) <==> Selected(r, f) && (cursor.Some? ==> id < cursor.value)
    ensures RowsAt(events, Page(events, f, cursor, limit), rows)
  {
    rows := [];
    ghost var ids: seq<int> := [];
    ghost var vis := Visible(cursor, |events|);
    ghost var all := DescIds(events, f, vis);
    var i := |events|;
    while i > 0 && !(0 <= limit <= |rows|)
      invariant 0 <= i <= |events|
      invariant RowsAt(events, ids, rows)
      invariant limit >= 0 ==> |ids| <= limit
      invariant all == ids + DescIds(events, f, Lower(i, vis))
    {
      if AllHold(clauses, i, events[i - 1]) {
        ScanTakes(events, f, cursor, i, ids, rows);
        rows, ids := rows + [events[i - 1]], ids + [i];
      } else {
        ScanSkips(events, f, cursor, i);
      }
      i := i - 1;
    }
    ScanEnds(ids, DescIds(events, f, Lower(i, vis)), limit);
  }

  // ---------- entity listing ----------

  predicate EntitySelected(r: EntityRow, areaId: Option<string>, orphan: bool, deviceClass: Option<string>) {
    && (if orphan then r.areaId.None? else areaId.Some? ==> r.areaId == areaId)
    && (deviceClass.Some? ==> r.deviceClass == deviceClass)
  }

  /** Asking for orphans overrides the area; an empty area or class is one like any other. */
  lemma SelectsEntities(r: EntityRow, areaId: Option<string>, orphan: bool, deviceClass: Option<string>)
    ensures EntitySelected(r, areaId, orphan, deviceClass) <==>
              && (orphan ==> r.areaId == None)
              && (!orphan && areaId != None ==> r.areaId == areaId)
              && (deviceClass != None ==> r.deviceClass == deviceClass)
  {
  }

  /** What `list_entities` may return: selected rows, each once, and all of them if they fit the limit. */
  ghost predicate Listed(t: map<string, EntityRow>, areaId: Option<string>, orphan: bool, deviceClass: Option<string>,
                         limit: int, rows: seq<EntityRow>) {
    && (forall i, j :: 0 <= i < j < |rows| ==> rows[i].entityId != rows[j].entityId)
    && (forall r :: r in rows ==>
          r.entityId in t && t[r.entityId] == r && EntitySelected(r, areaId, orphan, deviceClass))
    && (limit >= 0 ==> |rows| <= limit)
    && (limit < 0 || |rows| < limit ==>
          forall id :: id in t && EntitySelected(t[id], areaId, orphan, deviceClass) ==> t[id] in rows)
  }

  predicate WellKeyed(t: map<string, EntityRow>) {
    forall id :: id in t ==> t[id].entityId == id
  }

  lemma {:induction false} UpsertEntitiesWellKeyed(t: map<string, EntityRow>, rows: seq<EntityRow>)
    requires WellKeyed(t)
    ensures WellKeyed(UpsertEntities(t, rows))
  {
    if rows != [] {
      UpsertEntitiesWellKeyed(t, rows[..|rows| - 1]);
    }
  }

  /**
   The data-access object. Every writing method takes `fault`: whether the connection, a statement
   or the commit raises. A raising call has rolled back, so the tables are as before.
   */
  class StoreDAO {
    var areas: map<string, AreaRow>
    var devices: map<string, DeviceRow>
    var entities: map<string, EntityRow>
    var events: seq<EventRow>
    var counters: map<CounterKey, int>
    var drops: map<int, int>

    ghost function Contents(): Tables
      reads this
    {
      Tables(areas, devices, entities, events, counters, drops)
    }

    constructor ()
      ensures Contents() == EMPTY_TABLES
    {
      areas, devices, entities := map[], map[], map[];
      events, counters, drops := [], map[], map[];
    }

    method UpsertAreaRows(rows: seq<AreaRow>, fault: bool) returns (ok: bool)
      modifies this
      ensures ok <==> rows == [] || (!fault && forall i :: 0 <= i < |rows| ==> rows[i].name.Some?)
      ensures Contents() == if ok then old(Contents()).(areas := UpsertAreas(old(areas), rows)) else old(Contents())
    {
      if rows == [] { return true; }
      if fault { return false; }
      var t := areas;
      for i := 0 to |rows|
        invariant t == UpsertAreas(areas, rows[..i])
        invariant forall j :: 0 <= j < i ==> rows[j].name.Some?
      {
        if rows[i].name.None? { return false; }
        assert rows[..i + 1][..i] == rows[..i];
        t := UpsertArea(t, rows[i]);
      }
      assert rows[..|rows|] == rows;
      areas := t;
      return true;
    }

    method UpsertDeviceRows(rows: seq<DeviceRow>, fault: bool) returns (ok: bool)
      modifies this
      ensures ok <==> rows == [] || !fault
      ensures Contents() == if ok then old(Contents()).(devices := UpsertDevices(old(devices), rows)) else old(Contents())
    {
      if rows == [] { return true; }
      if fault { return false; }
      var t := devices;
      for i := 0 to |rows|
        invariant t == UpsertDevices(devices, rows[..i])
      {
        assert rows[..i + 1][..i] == rows[..i];
        t := UpsertDevice(t, rows[i]);
      }
      assert rows[..|rows|] == rows;
      devices := t;
      return true;
    }

    method UpsertEntityRows(rows: seq<EntityRow>, fault: bool) returns (ok: bool)
      modifies this
      ensures ok <==> rows == [] || !fault
      ensures Contents() == if ok then old(Contents()).(entities := UpsertEntities(old(entities), rows)) else old(Contents())
    {
      if rows == [] { return true; }
      if fault { return false; }
      var t := entities;
      for i := 0 to |rows|
        invariant t == UpsertEntities(entities, rows[..i])
      {
        assert rows[..i + 1][..i] == rows[..i];
        t := UpsertEntity(t, rows[i]);
      }
      assert rows[..|rows|] == rows;
      entities := t;
      return true;
    }

    method BumpEntityEventCounts(entityId: string, lastSeenAt: int, fault: bool) returns (ok: bool)
      modifies this
      ensures ok == !fault
      ensures Contents() == if ok then old(Contents()).(entities := Bump(old(entities), entityId, lastSeenAt))
                            else old(Contents())
    {
      if !fault { entities := Bump(entities, entityId, lastSeenAt); }
      return !fault;
    }

    /** Rows come in no particular order, each entity once, as many as the limit lets through. */
    method ListEntities(areaId: Option<string>, orphan: bool, deviceClass: Option<string>, limit: int)
      returns (rows: seq<EntityRow>)
      requires WellKeyed(entities)
      ensures Listed(entities, areaId, orphan, deviceClass, limit, rows)
    {
      rows := [];
      var left := entities.Keys;
      while left != {} && !(0 <= limit <= |rows|)
        invariant left <= entities.Keys
        invariant forall i, j :: 0 <= i < j < |rows| ==> rows[i].entityId != rows[j].entityId
        invariant forall r :: r in rows ==>
                    && r.entityId in entities && r.entityId !in left && entities[r.entityId] == r
                    && EntitySelected(r, areaId, orphan, deviceClass)
        invariant limit >= 0 ==> |rows| <= limit
        invariant forall id :: id in entities && id !in left && EntitySelected(entities[id], areaId, orphan, deviceClass)
                               ==> entities[id] in rows
        decreases |left|
      {
        var id :| id in left;
        left := left - {id};
        if EntitySelected(entities[id], areaId, orphan, deviceClass) {
          rows := rows + [entities[id]];
        }
      }
    }

    method InsertEvents(rows: seq<EventRow>, fault: bool) returns (ok: bool)
      modifies this
      ensures ok <==> rows == [] || !fault
      ensures Contents() == if ok then old(Contents()).(events := old(events) + rows) else old(Contents())
    {
      if rows == [] {
        assert events + rows == events;
        return true;
      }
      if !fault { events := events + rows; }
      return !fault;
    }

    method ListEvents(f: Filter, cursor: Option<int>, limit: int) returns (rows: seq<EventRow>)
      ensures RowsAt(events, Page(events, f, cursor, limit), rows)
    {
      var clauses := WhereClause(f, cursor);
      rows := Scan(events, clauses, limit, f, cursor);
    }

    method IncrementCounter(areaId: string, hourBucket: int, amount: int, fault: bool) returns (ok: bool)
      modifies this
      ensures ok == !fault
      ensures Contents() == if ok then old(Contents()).(counters := Increment(old(counters), (areaId, hourBucket), amount))
                            else old(Contents())
    {
      if !fault { counters := Increment(counters, (areaId, hourBucket), amount); }
      return !fault;
    }

    method GetCounters24h(nowHour: int) returns (m: map<CounterKey, int>)
      ensures forall k :: k in m <==> k in counters && k.1 > nowHour - 24
      ensures forall k :: k in m ==> m[k] == counters[k]
    {
      m := map k | k in counters && k.1 > nowHour - 24 :: counters[k];
    }

    method IncrementPrivacyDrop(hourBucket: int, amount: int, fault: bool) returns (ok: bool)
      modifies this
      ensures ok == !fault
      ensures Contents() == if ok then old(Contents()).(drops := Increment(old(drops), hourBucket, amount))
                            else old(Contents())
    {
      if !fault { drops := Increment(drops, hourBucket, amount); }
      return !fault;
    }
  }
}
