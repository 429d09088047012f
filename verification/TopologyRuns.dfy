/** What sequences of refreshes keep: versions, the tables and the index (topology/orchestrator.py). */
module TopologyRuns {
  import opened Prelude
  import opened Store
  import opened Topology
  import opened Snapshots
  import opened Orchestrator
  import opened Lamp

  datatype Call = Call(payload: Payload, ts: int, faultAt: int)

  function StateAfter(hash: Hash, calls: seq<Call>): TopoState {
    if calls == [] then START
    else
      var c := calls[|calls| - 1];
      Apply(hash, StateAfter(hash, calls[..|calls| - 1]), c.payload, c.ts, c.faultAt).0
  }

  function OutcomeAt(hash: Hash, calls: seq<Call>, i: int): Outcome
    requires 0 <= i < |calls|
  {
    Apply(hash, StateAfter(hash, calls[..i]), calls[i].payload, calls[i].ts, calls[i].faultAt).1
  }

  lemma StateAfterNext(hash: Hash, calls: seq<Call>, i: int)
    requires 0 <= i < |calls|
    ensures StateAfter(hash, calls[..i + 1])
            == Apply(hash, StateAfter(hash, calls[..i]), calls[i].payload, calls[i].ts, calls[i].faultAt).0
  {
    assert calls[..i + 1][..i] == calls[..i];
  }

  // ---------- append-only versions ----------

  lemma ApplyVersioned(hash: Hash, s: TopoState, p: Payload, ts: int, faultAt: int)
    requires Versioned(hash, s.snapshots)
    ensures var s' := Apply(hash, s, p, ts, faultAt).0;
            Versioned(hash, s'.snapshots) && s.snapshots <= s'.snapshots
  {
    InsertedVersioned(hash, s.snapshots, p, ts, None);
  }

  /** Over any run, failing calls included: ids increase by insertion, stored rows never change. */
  lemma {:induction false} VersionsAppendOnly(hash: Hash, calls: seq<Call>, i: int)
    requires 0 <= i <= |calls|
    ensures Versioned(hash, StateAfter(hash, calls).snapshots)
    ensures StateAfter(hash, calls[..i]).snapshots <= StateAfter(hash, calls).snapshots
    decreases |calls|
  {
    if i == |calls| {
      assert calls[..i] == calls;
    }
    if calls != [] {
      var n := |calls| - 1;
      var c := calls[n];
      if i <= n {
        VersionsAppendOnly(hash, calls[..n], i);
        assert calls[..n][..i] == calls[..i];
      } else {
        VersionsAppendOnly(hash, calls[..n], 0);
      }
      ApplyVersioned(hash, StateAfter(hash, calls[..n]), c.payload, c.ts, c.faultAt);
    }
  }

  ghost predicate HashStored(snaps: seq<Snapshot>, h: string) {
    exists k :: 0 <= k < |snaps| && snaps[k].payloadHash == h
  }

  /** A hash is stored exactly when some call with it got past its own insertion. */
  lemma {:induction false} StoredIffInserted(hash: Hash, calls: seq<Call>, h: string)
    ensures HashStored(StateAfter(hash, calls).snapshots, h)
            <==> exists k :: 0 <= k < |calls| && hash(calls[k].payload) == h && calls[k].faultAt != CALL_INSERT
  {
    if calls != [] {
      var n := |calls| - 1;
      var c := calls[n];
      StoredIffInserted(hash, calls[..n], h);
      var before := StateAfter(hash, calls[..n]).snapshots;
      var after := StateAfter(hash, calls).snapshots;
      assert after == before || (c.faultAt != CALL_INSERT && |after| == |before| + 1 && before <= after
                                 && after[|before|].payloadHash == hash(c.payload));
      if HashStored(before, h) {
        var k :| 0 <= k < |before| && before[k].payloadHash == h;
        assert after[k].payloadHash == h;
        var j :| 0 <= j < n && hash(calls[..n][j].payload) == h && calls[..n][j].faultAt != CALL_INSERT;
        assert hash(calls[j].payload) == h && calls[j].faultAt != CALL_INSERT;
      } else if j :| 0 <= j < |calls| && hash(calls[j].payload) == h && calls[j].faultAt != CALL_INSERT {
        assert FindHash(before, h).None?;
        assert after[|before|].payloadHash == h;
      }
    }
  }

  /** What one completed call returns, from the state before it. */
  lemma DoneShape(hash: Hash, s: TopoState, p: Payload, ts: int, faultAt: int)
    requires Versioned(hash, s.snapshots) && Apply(hash, s, p, ts, faultAt).1.Done?
    ensures var (s', r) := Apply(hash, s, p, ts, faultAt);
            && 1 <= r.snapshotId <= |s'.snapshots| && s'.snapshots[r.snapshotId - 1].payloadHash == hash(p)
            && (r.isNew <==> !HashStored(s.snapshots, hash(p)))
  {
  }

  /** A completed call returns the id of its payload's hash, and `is_new` marks the hash's first insertion. */
  lemma {:induction false} DoneNamesHash(hash: Hash, calls: seq<Call>, i: int)
    requires 0 <= i < |calls| && OutcomeAt(hash, calls, i).Done?
    ensures var snaps := StateAfter(hash, calls).snapshots;
            var sid := OutcomeAt(hash, calls, i).snapshotId;
            1 <= sid <= |snaps| && snaps[sid - 1].payloadHash == hash(calls[i].payload)
    ensures OutcomeAt(hash, calls, i).isNew
            <==> forall k :: 0 <= k < i && hash(calls[k].payload) == hash(calls[i].payload)
                             ==> calls[k].faultAt == CALL_INSERT
  {
    var c := calls[i];
    VersionsAppendOnly(hash, calls[..i], i);
    VersionsAppendOnly(hash, calls, i + 1);
    StateAfterNext(hash, calls, i);
    DoneShape(hash, StateAfter(hash, calls[..i]), c.payload, c.ts, c.faultAt);
    FirstInserted(hash, calls, i);
  }

  /** The hash of call i is stored before it exactly when an earlier call got past inserting it. */
  lemma FirstInserted(hash: Hash, calls: seq<Call>, i: int)
    requires 0 <= i < |calls|
    ensures HashStored(StateAfter(hash, calls[..i]).snapshots, hash(calls[i].payload))
            <==> exists k :: 0 <= k < i && hash(calls[k].payload) == hash(calls[i].payload)
                             && calls[k].faultAt != CALL_INSERT
  {
    StoredIffInserted(hash, calls[..i], hash(calls[i].payload));
    assert forall k :: 0 <= k < i ==> calls[..i][k] == calls[k];
  }

  /** Two completed calls return the same id exactly when their payloads hash alike. */
  lemma {:induction false} SameIdIffSameHash(hash: Hash, calls: seq<Call>, i: int, j: int)
    requires 0 <= i < |calls| && 0 <= j < |calls|
    requires OutcomeAt(hash, calls, i).Done? && OutcomeAt(hash, calls, j).Done?
    ensures OutcomeAt(hash, calls, i).snapshotId == OutcomeAt(hash, calls, j).snapshotId
            <==> hash(calls[i].payload) == hash(calls[j].payload)
  {
    DoneNamesHash(hash, calls, i);
    DoneNamesHash(hash, calls, j);
    VersionsAppendOnly(hash, calls, 0);
    HashNamesId(hash, StateAfter(hash, calls).snapshots,
                OutcomeAt(hash, calls, i).snapshotId - 1, OutcomeAt(hash, calls, j).snapshotId - 1);
  }

  /** The index is never torn: it is one applied payload's build under the id that call returned. */
  lemma {:induction false} IndexIsOneBuild(hash: Hash, calls: seq<Call>)
    ensures var idx := StateAfter(hash, calls).index;
            idx == map[] || exists i :: 0 <= i < |calls| && BuiltBy(hash, calls, i, idx)
  {
    if calls != [] {
      var n := |calls| - 1;
      IndexIsOneBuild(hash, calls[..n]);
      if OutcomeAt(hash, calls, n).Done? {
        assert BuiltBy(hash, calls, n, StateAfter(hash, calls).index);
      } else {
        var idx := StateAfter(hash, calls[..n]).index;
        assert StateAfter(hash, calls).index == idx;
        if idx != map[] {
          var i :| 0 <= i < n && BuiltBy(hash, calls[..n], i, idx);
          assert calls[..n][..i] == calls[..i];
          assert BuiltBy(hash, calls, i, idx);
        }
      }
    }
  }

  /** Call i completed, and `idx` is its payload's build under the id it returned. */
  ghost predicate BuiltBy(hash: Hash, calls: seq<Call>, i: int, idx: Index)
    requires 0 <= i < |calls|
  {
    var r := OutcomeAt(hash, calls, i);
    r.Done? && idx == Build(calls[i].payload, r.snapshotId)
  }

  // ---------- tables against index ----------

  /** The entities table and the index attribute an entity alike, from the same version. */
  predicate Agrees(r: EntityRow, ref: EntityRef) {
    r.deviceId == ref.deviceId && r.areaId == ref.areaId && r.deviceClass == ref.deviceClass
    && r.snapshotId == ref.snapshotId
  }

  /** Row building and index building are different folds with the same attribution, duplicates included. */
  lemma {:induction false} UpsertedAgree(
      t: map<string, EntityRow>, es: seq<Dict>, dm: map<Option<string>, Option<string>>, sid: int, ts: int, id: string)
    ensures var u := UpsertEntities(t, EntityRows(es, dm, sid, ts));
            var idx := BuildFrom(es, dm, sid);
            && (id in idx ==> id in u && Agrees(u[id], idx[id]))
            && (id !in idx ==> (id in u <==> id in t))
            && (id !in idx && id in t ==> u[id] == t[id])
  {
    if es != [] {
      var n := |es| - 1;
      UpsertedAgree(t, es[..n], dm, sid, ts, id);
      if Truthy(Field(es[n], "entity_id")) {
        var rows := EntityRows(es, dm, sid, ts);
        assert rows[..|rows| - 1] == EntityRows(es[..n], dm, sid, ts);
      } else {
        assert EntityRows(es, dm, sid, ts) == EntityRows(es[..n], dm, sid, ts);
      }
    }
  }

  /** What a completed refresh with a new version did. */
  lemma NewApplyShape(hash: Hash, s: TopoState, p: Payload, ts: int, faultAt: int)
    requires Apply(hash, s, p, ts, faultAt).1.Done? && Apply(hash, s, p, ts, faultAt).1.isNew
    ensures var (s', r) := Apply(hash, s, p, ts, faultAt);
            var sid := |s.snapshots| + 1;
            && r == Done(sid, true) && FindHash(s.snapshots, hash(p)).None?
            && s'.snapshots == s.snapshots + [Snapshot(sid, ts, hash(p), p, None)]
            && s'.tables.entities
               == UpsertEntities(s.tables.entities, EntityRows(p.entities, DeviceAreas(p.devices), sid, ts))
            && s'.index == BuildFrom(p.entities, DeviceAreas(p.devices), sid)
  {
  }

  /** A refresh that stored a new version leaves table and index agreeing on every listed entity. */
  lemma {:induction false} NewApplyAgrees(hash: Hash, s: TopoState, p: Payload, ts: int, faultAt: int, id: string)
    requires Apply(hash, s, p, ts, faultAt).1.Done? && Apply(hash, s, p, ts, faultAt).1.isNew
    requires Lists(p, id)
    ensures var (s', r) := Apply(hash, s, p, ts, faultAt);
            && id in s'.tables.entities && id in s'.index && Agrees(s'.tables.entities[id], s'.index[id])
            && s'.index[id].snapshotId == r.snapshotId
            && s'.snapshots != [] && s'.snapshots[|s'.snapshots| - 1].payload == p
            && s'.snapshots[|s'.snapshots| - 1].snapshotId == r.snapshotId
  {
    NewApplyShape(hash, s, p, ts, faultAt);
    var sid := |s.snapshots| + 1;
    var dm := DeviceAreas(p.devices);
    BuildKeys(p.entities, dm, sid, id);
    BuildStamps(p.entities, dm, sid);
    UpsertedAgree(s.tables.entities, p.entities, dm, sid, ts, id);
  }

  /** An area's row is what its last listing says, under the first-seen time it had; unlisted areas stay. */
  lemma {:induction false} UpsertedAreas(t: map<string, AreaRow>, areas: seq<Dict>, sid: int, ts: int, id: string)
    ensures var u := UpsertAreas(t, AreaRows(areas, sid, ts));
            var i := LastIndex(areas, "area_id", id);
            if id != "" && i >= 0 then
              id in u && u[id] == AreaRowOf(areas[i], sid, ts).(firstSeenAt := if id in t then t[id].firstSeenAt else ts)
            else
              (id in u <==> id in t) && (id in t ==> u[id] == t[id])
  {
    if areas != [] {
      var n := |areas| - 1;
      UpsertedAreas(t, areas[..n], sid, ts, id);
      var rows := AreaRows(areas, sid, ts);
      if Truthy(Field(areas[n], "area_id")) {
        assert rows[..|rows| - 1] == AreaRows(areas[..n], sid, ts);
      } else {
        assert rows == AreaRows(areas[..n], sid, ts);
      }
    }
  }

  /** The same for devices. */
  lemma {:induction false} UpsertedDevices(t: map<string, DeviceRow>, devices: seq<Dict>, sid: int, ts: int, id: string)
    ensures var u := UpsertDevices(t, DeviceRows(devices, sid, ts));
            var i := LastIndex(devices, "device_id", id);
            if id != "" && i >= 0 then
              id in u && u[id] == DeviceRowOf(devices[i], sid, ts).(
                                    firstSeenAt := if id in t then t[id].firstSeenAt else ts)
            else
              (id in u <==> id in t) && (id in t ==> u[id] == t[id])
  {
    if devices != [] {
      var n := |devices| - 1;
      UpsertedDevices(t, devices[..n], sid, ts, id);
      var rows := DeviceRows(devices, sid, ts);
      if Truthy(Field(devices[n], "device_id")) {
        assert rows[..|rows| - 1] == DeviceRows(devices[..n], sid, ts);
      } else {
        assert rows == DeviceRows(devices[..n], sid, ts);
      }
    }
  }

  /** What a completed refresh with a new version leaves of one area and of one device. */
  lemma {:induction false} NewApplyRegistry(
      hash: Hash, s: TopoState, p: Payload, ts: int, faultAt: int, area: string, device: string)
    requires Apply(hash, s, p, ts, faultAt).1.Done? && Apply(hash, s, p, ts, faultAt).1.isNew
    ensures var (s', r) := Apply(hash, s, p, ts, faultAt);
            var t, t' := s.tables, s'.tables;
            var i, j := LastIndex(p.areas, "area_id", area), LastIndex(p.devices, "device_id", device);
            && (area != "" && i >= 0 ==>
                  area in t'.areas
                  && t'.areas[area] == AreaRowOf(p.areas[i], r.snapshotId, ts).(
                                         firstSeenAt := if area in t.areas then t.areas[area].firstSeenAt else ts))
            && (area == "" || i < 0 ==>
                  (area in t'.areas <==> area in t.areas) && (area in t.areas ==> t'.areas[area] == t.areas[area]))
            && (device != "" && j >= 0 ==>
                  device in t'.devices
                  && t'.devices[device] == DeviceRowOf(p.devices[j], r.snapshotId, ts).(
                       firstSeenAt := if device in t.devices then t.devices[device].firstSeenAt else ts))
            && (device == "" || j < 0 ==>
                  (device in t'.devices <==> device in t.devices)
                  && (device in t.devices ==> t'.devices[device] == t.devices[device]))
  {
    UpsertedAreas(s.tables.areas, p.areas, |s.snapshots| + 1, ts, area);
    UpsertedDevices(s.tables.devices, p.devices, |s.snapshots| + 1, ts, device);
    NewApplyTables(hash, s, p, ts, faultAt);
  }

  lemma NewApplyTables(hash: Hash, s: TopoState, p: Payload, ts: int, faultAt: int)
    requires Apply(hash, s, p, ts, faultAt).1.Done? && Apply(hash, s, p, ts, faultAt).1.isNew
    ensures var (s', r) := Apply(hash, s, p, ts, faultAt);
            var sid := |s.snapshots| + 1;
            && r.snapshotId == sid
            && s'.tables.areas == UpsertAreas(s.tables.areas, AreaRows(p.areas, sid, ts))
            && s'.tables.devices == UpsertDevices(s.tables.devices, DeviceRows(p.devices, sid, ts))
  {
  }

  /** The row of an entity's last listing is the last for its id. */
  lemma {:induction false} EntityRowsLast(
      es: seq<Dict>, dm: map<Option<string>, Option<string>>, sid: int, ts: int, id: string, i: int) returns (k: int)
    requires id != "" && LastListing(es, "entity_id", id, i)
    ensures LastFor(EntityRows(es, dm, sid, ts), id, k)
    ensures EntityRows(es, dm, sid, ts)[k] == EntityRowOf(es[i], dm, sid, ts)
  {
    var n := |es| - 1;
    var front := EntityRows(es[..n], dm, sid, ts);
    if i == n {
      k := |front|;
    } else {
      assert Field(es[n], "entity_id") != Some(id);
      k := EntityRowsLast(es[..n], dm, sid, ts, id, i);
      assert EntityRows(es, dm, sid, ts)[..|front|] == front;
    }
  }

  lemma {:induction false} EntityRowsStart(es: seq<Dict>, dm: map<Option<string>, Option<string>>, sid: int, ts: int)
    ensures forall k :: 0 <= k < |EntityRows(es, dm, sid, ts)| ==> Fresh(EntityRows(es, dm, sid, ts)[k], ts)
  {
    if es != [] {
      EntityRowsStart(es[..|es| - 1], dm, sid, ts);
    }
  }

  predicate Fresh(r: EntityRow, ts: int) {
    r.firstSeenAt == ts && r.eventCount24h == 0 && r.totalEventCount == 0
  }

  /** Fresh rows leave dates and counts as they were, or start them. */
  lemma {:induction false} FreshRowsKeep(t: map<string, EntityRow>, rows: seq<EntityRow>, ts: int, id: string)
    requires forall k :: 0 <= k < |rows| ==> Fresh(rows[k], ts)
    ensures id in t ==> id in UpsertEntities(t, rows)
    ensures id in UpsertEntities(t, rows) ==>
              var q := UpsertEntities(t, rows)[id];
              if id in t then
                q.firstSeenAt == t[id].firstSeenAt && q.eventCount24h == t[id].eventCount24h
                && q.totalEventCount == t[id].totalEventCount
              else Fresh(q, ts)
  {
    if rows != [] {
      FreshRowsKeep(t, rows[..|rows| - 1], ts, id);
    }
  }

  /** Every column of the entity row that a completed refresh with a new version leaves. */
  lemma NewApplyEntity(hash: Hash, s: TopoState, p: Payload, ts: int, faultAt: int, id: string, i: int)
    requires Apply(hash, s, p, ts, faultAt).1.Done? && Apply(hash, s, p, ts, faultAt).1.isNew
    requires id != "" && LastListing(p.entities, "entity_id", id, i)
    ensures var (s', r) := Apply(hash, s, p, ts, faultAt);
            var t, e := s.tables.entities, p.entities[i];
            && id in s'.tables.entities
            && var row := s'.tables.entities[id];
               && row.entityId == id && AttributedAs(p, e, row.deviceId, row.areaId, row.deviceClass)
               && row.friendlyName == (if "name" in e then e["name"] else None)
               && (row.domain == id || row.domain + "." <= id) && '.' !in row.domain
               && (row.disabled <==> Named(e, "disabled_by"))
               && row.snapshotId == r.snapshotId && row.lastSeenAt == ts
               && row.firstSeenAt == (if id in t then t[id].firstSeenAt else ts)
               && row.eventCount24h == (if id in t then t[id].eventCount24h else 0)
               && row.totalEventCount == (if id in t then t[id].totalEventCount else 0)
  {
    var sid := |s.snapshots| + 1;
    NewApplyShape(hash, s, p, ts, faultAt);
    var dm := DeviceAreas(p.devices);
    var k := EntityRowsLast(p.entities, dm, sid, ts, id, i);
    EntityRowsStart(p.entities, dm, sid, ts);
    UpsertEntitiesLast(s.tables.entities, EntityRows(p.entities, dm, sid, ts), id, k);
    FreshRowsKeep(s.tables.entities, EntityRows(p.entities, dm, sid, ts), ts, id);
    EntityRowIs(p, p.entities[i], sid, ts);
  }

  /** Without database errors a new version goes through exactly when these registry defects are absent. */
  lemma {:induction false} NewApplySucceedsIff(hash: Hash, s: TopoState, p: Payload, ts: int)
    requires FindHash(s.snapshots, hash(p)).None?
    ensures Apply(hash, s, p, ts, -1).1.Done?
            <==> && (forall i :: 0 <= i < |p.devices| ==> "device_id" in p.devices[i])
                 && (forall i :: 0 <= i < |p.areas| && Truthy(Field(p.areas[i], "area_id")) && "name" in p.areas[i]
                                 ==> p.areas[i]["name"].Some?)
  {
    UpsertAllSucceedsIff(s.tables, p, |s.snapshots| + 1, ts);
    AreaRowsNamed(p.areas, |s.snapshots| + 1, ts);
  }

  lemma UpsertAllSucceedsIff(t: Tables, p: Payload, sid: int, ts: int)
    ensures UpsertAll(t, p, sid, ts, -1).1 <==> EveryAreaNamed(AreaRows(p.areas, sid, ts)) && EveryDeviceKeyed(p)
  {
  }

  lemma {:induction false} AreaRowsNamed(areas: seq<Dict>, sid: int, ts: int)
    ensures EveryAreaNamed(AreaRows(areas, sid, ts))
            <==> forall i :: 0 <= i < |areas| && Truthy(Field(areas[i], "area_id")) && "name" in areas[i]
                             ==> areas[i]["name"].Some?
  {
    if areas != [] {
      var n := |areas| - 1;
      AreaRowsNamed(areas[..n], sid, ts);
      var front, rows := AreaRows(areas[..n], sid, ts), AreaRows(areas, sid, ts);
      assert forall i :: 0 <= i < |front| ==> rows[i] == front[i];
      assert forall i :: 0 <= i < n ==> areas[..n][i] == areas[i];
      if Truthy(Field(areas[n], "area_id")) {
        assert rows[|front|] == AreaRowOf(areas[n], sid, ts);
      } else {
        assert rows == front;
      }
    }
  }

  /**
   A refresh that dies after storing its version is never made up for: applying the same payload again
   reports an old version and leaves the tables as the failure left them, entities untouched.
   */
  lemma {:induction false} FailedApplyIsNeverRepaired(
      hash: Hash, s: TopoState, p: Payload, ts: int, faultAt: int, ts': int, faultAt': int)
    requires Versioned(hash, s.snapshots) && FindHash(s.snapshots, hash(p)).None?
    requires faultAt != CALL_INSERT && faultAt' != CALL_INSERT
    requires Apply(hash, s, p, ts, faultAt).1.Raised?
    ensures var s1 := Apply(hash, s, p, ts, faultAt).0;
            var (s2, r) := Apply(hash, s1, p, ts', faultAt');
            && s1.tables.entities == s.tables.entities && s1.index == s.index
            && r == Done(|s.snapshots| + 1, false)
            && s2.tables == s1.tables && s2.index == Build(p, |s.snapshots| + 1)
  {
    var s1 := Apply(hash, s, p, ts, faultAt).0;
    InsertedVersioned(hash, s.snapshots, p, ts, None);
    assert s1.snapshots[|s.snapshots|].payloadHash == hash(p);
    HashNamesId(hash, s1.snapshots, |s.snapshots|, FindHash(s1.snapshots, hash(p)).value);
  }

  /** A refresh that raises after its insertion has stored its version and touched neither entities nor index. */
  lemma FailedApplyShape(hash: Hash, s: TopoState, p: Payload, ts: int, faultAt: int)
    requires faultAt != CALL_INSERT && Apply(hash, s, p, ts, faultAt).1.Raised?
    ensures var s' := Apply(hash, s, p, ts, faultAt).0;
            && s'.index == s.index && s'.tables.entities == s.tables.entities
            && s'.snapshots == s.snapshots + [Snapshot(|s.snapshots| + 1, ts, hash(p), p, None)]
  {
  }

  /** It has done the upserts before the one that failed, and nothing of that one or after it. */
  lemma FailedApplyTables(hash: Hash, s: TopoState, p: Payload, ts: int, faultAt: int)
    requires faultAt != CALL_INSERT && Apply(hash, s, p, ts, faultAt).1.Raised?
    ensures var t, t' := s.tables, Apply(hash, s, p, ts, faultAt).0.tables;
            var sid := |s.snapshots| + 1;
            var areas, devices := AreaRows(p.areas, sid, ts), DeviceRows(p.devices, sid, ts);
            var areasFail := areas != [] && (faultAt == 1 || exists i :: 0 <= i < |areas| && areas[i].name == None);
            && (areasFail ==> t' == t)
            && (!areasFail && devices != [] && faultAt == 2 ==> t' == t.(areas := UpsertAreas(t.areas, areas)))
            && (!areasFail && !(devices != [] && faultAt == 2) ==>
                  t' == t.(areas := UpsertAreas(t.areas, areas), devices := UpsertDevices(t.devices, devices)))
  {
  }

  // ---------- which version an entity's row comes from ----------

  /** The version of the last completed refresh that was new and lists the entity, 0 if there is none. */
  ghost function LastUpserted(hash: Hash, calls: seq<Call>, id: string): int {
    if calls == [] then 0
    else
      var n := |calls| - 1;
      var r := OutcomeAt(hash, calls, n);
      if r.Done? && r.isNew && Lists(calls[n].payload, id) then r.snapshotId
      else LastUpserted(hash, calls[..n], id)
  }

  /** The entity's row is absent for version 0, and else is exactly what that stored version says of it. */
  ghost predicate RowTracks(s: TopoState, id: string, v: int) {
    && 0 <= v <= |s.snapshots|
    && (id in s.tables.entities <==> v > 0)
    && (v > 0 ==> id in Build(s.snapshots[v - 1].payload, v)
                  && Agrees(s.tables.entities[id], Build(s.snapshots[v - 1].payload, v)[id]))
  }

  lemma NewApplyTracks(hash: Hash, s: TopoState, p: Payload, ts: int, faultAt: int, id: string, v: int)
    requires RowTracks(s, id, v)
    requires Apply(hash, s, p, ts, faultAt).1.Done? && Apply(hash, s, p, ts, faultAt).1.isNew
    ensures RowTracks(Apply(hash, s, p, ts, faultAt).0, id, if Lists(p, id) then |s.snapshots| + 1 else v)
  {
    var sid := |s.snapshots| + 1;
    NewApplyShape(hash, s, p, ts, faultAt);
    BuildKeys(p.entities, DeviceAreas(p.devices), sid, id);
    UpsertedAgree(s.tables.entities, p.entities, DeviceAreas(p.devices), sid, ts, id);
    assert Lists(p, id) <==> id in Build(p, sid);
  }

  lemma OtherApplyTracks(hash: Hash, s: TopoState, p: Payload, ts: int, faultAt: int, id: string, v: int)
    requires RowTracks(s, id, v)
    requires Apply(hash, s, p, ts, faultAt).1.Done? ==> !Apply(hash, s, p, ts, faultAt).1.isNew
    ensures RowTracks(Apply(hash, s, p, ts, faultAt).0, id, v)
  {
    if faultAt != CALL_INSERT && Apply(hash, s, p, ts, faultAt).1.Raised? {
      FailedApplyShape(hash, s, p, ts, faultAt);
    }
  }

  /** Over every run, failing refreshes included, an entity's row is what the version that last wrote it says. */
  lemma {:induction false} RunTracksUpserts(hash: Hash, calls: seq<Call>, id: string)
    ensures RowTracks(StateAfter(hash, calls), id, LastUpserted(hash, calls, id))
  {
    if calls != [] {
      var n := |calls| - 1;
      var c := calls[n];
      var s, v := StateAfter(hash, calls[..n]), LastUpserted(hash, calls[..n], id);
      RunTracksUpserts(hash, calls[..n], id);
      if OutcomeAt(hash, calls, n).Done? && OutcomeAt(hash, calls, n).isNew {
        NewApplyShape(hash, s, c.payload, c.ts, c.faultAt);
        NewApplyTracks(hash, s, c.payload, c.ts, c.faultAt, id, v);
      } else {
        OtherApplyTracks(hash, s, c.payload, c.ts, c.faultAt, id, v);
      }
    }
  }

  /** The index entry is that of the stored version it is stamped with. */
  ghost predicate EntryTracks(snaps: seq<Snapshot>, idx: Index, id: string)
    requires id in idx
  {
    var v := idx[id].snapshotId;
    1 <= v <= |snaps|
    && id in Build(snaps[v - 1].payload, v) && Build(snaps[v - 1].payload, v)[id] == idx[id]
  }

  lemma BuiltTracks(snaps: seq<Snapshot>, v: int, id: string)
    requires 1 <= v <= |snaps| && id in Build(snaps[v - 1].payload, v)
    ensures EntryTracks(snaps, Build(snaps[v - 1].payload, v), id)
  {
    BuildStamps(snaps[v - 1].payload.entities, DeviceAreas(snaps[v - 1].payload.devices), v);
  }

  lemma UnbuiltStands(hash: Hash, s: TopoState, p: Payload, ts: int, faultAt: int)
    requires Apply(hash, s, p, ts, faultAt).1.Raised?
    ensures Apply(hash, s, p, ts, faultAt).0.index == s.index
    ensures s.snapshots <= Apply(hash, s, p, ts, faultAt).0.snapshots
  {
  }

  /** Over every run an index entry is that of the stored version it is stamped with. */
  lemma {:induction false} IndexTracksVersion(hash: Hash, calls: seq<Call>, id: string)
    requires CollisionFree(hash) && id in StateAfter(hash, calls).index
    ensures EntryTracks(StateAfter(hash, calls).snapshots, StateAfter(hash, calls).index, id)
  {
    var n := |calls| - 1;
    var c := calls[n];
    if OutcomeAt(hash, calls, n).Done? {
      LastDone(hash, calls);
      BuiltTracks(StateAfter(hash, calls).snapshots, OutcomeAt(hash, calls, n).snapshotId, id);
    } else {
      UnbuiltStands(hash, StateAfter(hash, calls[..n]), c.payload, c.ts, c.faultAt);
      IndexTracksVersion(hash, calls[..n], id);
    }
  }

  /**
   After any run, failing refreshes included, the table agrees with an indexed entity if and only if the
   version that last wrote the entity's row is the one its index entry is stamped with.
   */
  lemma {:induction false} AgreementExactly(hash: Hash, calls: seq<Call>, id: string)
    requires CollisionFree(hash) && id in StateAfter(hash, calls).index
    ensures var s := StateAfter(hash, calls);
            (id in s.tables.entities && Agrees(s.tables.entities[id], s.index[id]))
            <==> LastUpserted(hash, calls, id) == s.index[id].snapshotId
  {
    var s, v := StateAfter(hash, calls), LastUpserted(hash, calls, id);
    RunTracksUpserts(hash, calls, id);
    IndexTracksVersion(hash, calls, id);
    if v > 0 {
      var p := s.snapshots[v - 1].payload;
      BuildStamps(p.entities, DeviceAreas(p.devices), v);
    }
  }

  /** Under a collision-free hash the index is the build of the stored version just applied. */
  lemma {:induction false} LastDone(hash: Hash, calls: seq<Call>)
    requires CollisionFree(hash) && calls != [] && OutcomeAt(hash, calls, |calls| - 1).Done?
    ensures var s := StateAfter(hash, calls);
            var sid := OutcomeAt(hash, calls, |calls| - 1).snapshotId;
            && 1 <= sid <= |s.snapshots| && s.snapshots[sid - 1].payload == calls[|calls| - 1].payload
            && s.index == Build(s.snapshots[sid - 1].payload, sid)
  {
    var s := StateAfter(hash, calls);
    DoneNamesHash(hash, calls, |calls| - 1);
    VersionsAppendOnly(hash, calls, 0);
  }

  /** Id of the newest stored version listing the entity, 0 if there is none. */
  ghost function NewestListing(snaps: seq<Snapshot>, id: string): (v: nat)
    ensures v <= |snaps|
    ensures v > 0 ==> Lists(snaps[v - 1].payload, id)
    ensures forall k :: v <= k < |snaps| ==> !Lists(snaps[k].payload, id)
  {
    if snaps == [] then 0
    else if Lists(snaps[|snaps| - 1].payload, id) then |snaps|
    else NewestListing(snaps[..|snaps| - 1], id)
  }

  lemma NewestAppended(snaps: seq<Snapshot>, x: Snapshot, id: string)
    ensures NewestListing(snaps + [x], id) == if Lists(x.payload, id) then |snaps| + 1 else NewestListing(snaps, id)
  {
    assert (snaps + [x])[..|snaps|] == snaps;
  }

  ghost predicate AllDone(hash: Hash, calls: seq<Call>) {
    forall i :: 0 <= i < |calls| ==> OutcomeAt(hash, calls, i).Done?
  }

  lemma AllDoneFront(hash: Hash, calls: seq<Call>)
    requires calls != [] && AllDone(hash, calls)
    ensures AllDone(hash, calls[..|calls| - 1])
  {
    var front := calls[..|calls| - 1];
    forall i | 0 <= i < |front| ensures OutcomeAt(hash, front, i).Done? {
      assert front[..i] == calls[..i];
      assert OutcomeAt(hash, calls, i).Done?;
    }
  }

  lemma KnownApplyShape(hash: Hash, s: TopoState, p: Payload, ts: int, faultAt: int)
    requires Apply(hash, s, p, ts, faultAt).1.Done? && !Apply(hash, s, p, ts, faultAt).1.isNew
    ensures var s' := Apply(hash, s, p, ts, faultAt).0;
            s'.snapshots == s.snapshots && s'.tables == s.tables
  {
  }

  /** When no refresh has failed, the row comes from the newest stored version listing the entity. */
  lemma {:induction false} CompletedRunsTrackNewest(hash: Hash, calls: seq<Call>, id: string)
    requires AllDone(hash, calls)
    ensures LastUpserted(hash, calls, id) == NewestListing(StateAfter(hash, calls).snapshots, id)
  {
    if calls != [] {
      var n := |calls| - 1;
      var c := calls[n];
      var s := StateAfter(hash, calls[..n]);
      AllDoneFront(hash, calls);
      CompletedRunsTrackNewest(hash, calls[..n], id);
      assert OutcomeAt(hash, calls, n).Done?;
      if OutcomeAt(hash, calls, n).isNew {
        NewApplyShape(hash, s, c.payload, c.ts, c.faultAt);
        NewestAppended(s.snapshots, Snapshot(|s.snapshots| + 1, c.ts, hash(c.payload), c.payload, None), id);
      } else {
        KnownApplyShape(hash, s, c.payload, c.ts, c.faultAt);
      }
    }
  }

  /** The A, B, A run concretely. */
  lemma {:induction false} ReturnToOldVersion(hash: Hash)
    requires CollisionFree(hash)
    ensures var s1 := Apply(hash, START, LAMP_IN_HALL, 1, -1).0;
            var s2 := Apply(hash, s1, LAMP_IN_DEN, 2, -1).0;
            var (s3, r) := Apply(hash, s2, LAMP_IN_HALL, 3, -1);
            && r == Done(1, false)
            && LAMP in s3.index && s3.index[LAMP].areaId == Some("hall")
            && LAMP in s3.tables.entities && s3.tables.entities[LAMP].areaId == Some("den")
  {
    LampMoved(hash);
    var s1 := Apply(hash, START, LAMP_IN_HALL, 1, -1).0;
    var s2 := Apply(hash, s1, LAMP_IN_DEN, 2, -1).0;
    ReappliedOld(hash, s2, LAMP_IN_HALL, 3, 0);
    LampIndexed(LAMP_IN_HALL, 1);
  }

  lemma {:induction false} LampMoved(hash: Hash)
    requires CollisionFree(hash)
    ensures var s1 := Apply(hash, START, LAMP_IN_HALL, 1, -1).0;
            var s2 := Apply(hash, s1, LAMP_IN_DEN, 2, -1).0;
            && Versioned(hash, s2.snapshots) && |s2.snapshots| == 2
            && s2.snapshots[0].payloadHash == hash(LAMP_IN_HALL)
            && LAMP in s2.tables.entities && s2.tables.entities[LAMP].areaId == Some("den")
  {
    var s1 := Apply(hash, START, LAMP_IN_HALL, 1, -1).0;
    LampApplied(hash, START, LAMP_IN_HALL, 1);
    assert LAMP_IN_HALL.entities[0]["area_id"] != LAMP_IN_DEN.entities[0]["area_id"];
    assert s1.snapshots[0].payloadHash == hash(LAMP_IN_HALL) != hash(LAMP_IN_DEN);
    LampApplied(hash, s1, LAMP_IN_DEN, 2);
  }

  /** A refresh that fails at its last upsert, then the same payload again: indexed, but without a row. */
  lemma {:induction false} RetryLeavesNoRow(hash: Hash)
    ensures var calls := [Call(LAMP_IN_HALL, 1, CALL_ENTITIES), Call(LAMP_IN_HALL, 2, -1)];
            var s := StateAfter(hash, calls);
            && OutcomeAt(hash, calls, 1) == Done(1, false) && |s.snapshots| == 1
            && LAMP in s.index && LAMP !in s.tables.entities && LastUpserted(hash, calls, LAMP) == 0
  {
    var failed := [Call(LAMP_IN_HALL, 1, CALL_ENTITIES)];
    var calls := failed + [Call(LAMP_IN_HALL, 2, -1)];
    LampRefused(hash);
    assert calls[..1] == failed;
    InsertedVersioned(hash, [], LAMP_IN_HALL, 1, None);
    ReappliedOld(hash, StateAfter(hash, failed), LAMP_IN_HALL, 2, 0);
    LampIndexed(LAMP_IN_HALL, 1);
  }

  lemma LampRefused(hash: Hash)
    ensures var failed := [Call(LAMP_IN_HALL, 1, CALL_ENTITIES)];
            var s := StateAfter(hash, failed);
            && s.snapshots == Inserted([], LAMP_IN_HALL, hash(LAMP_IN_HALL), 1, None) && |s.snapshots| == 1
            && s.tables.entities == map[] && LastUpserted(hash, failed, LAMP) == 0
  {
    var failed := [Call(LAMP_IN_HALL, 1, CALL_ENTITIES)];
    var p := LAMP_IN_HALL;
    assert failed[..0] == [];
    assert |EntityRows(p.entities, DeviceAreas(p.devices), 1, 1)|
           == |EntityRows(p.entities[..0], DeviceAreas(p.devices), 1, 1)| + 1;
    assert OutcomeAt(hash, failed, 0).Raised?;
    FailedApplyShape(hash, START, p, 1, CALL_ENTITIES);
  }

  /** Applying a payload whose hash is stored only rebuilds the index. */
  lemma {:induction false} ReappliedOld(hash: Hash, s: TopoState, p: Payload, ts: int, i: nat)
    requires Versioned(hash, s.snapshots) && i < |s.snapshots| && s.snapshots[i].payloadHash == hash(p)
    ensures Apply(hash, s, p, ts, -1) == (s.(index := Build(p, i + 1)), Done(i + 1, false))
  {
    HashNamesId(hash, s.snapshots, i, FindHash(s.snapshots, hash(p)).value);
  }

  lemma LampApplied(hash: Hash, s: TopoState, p: Payload, ts: int)
    requires p == LAMP_IN_HALL || p == LAMP_IN_DEN
    requires forall i :: 0 <= i < |s.snapshots| ==> s.snapshots[i].payloadHash != hash(p)
    ensures var (s', r) := Apply(hash, s, p, ts, -1);
            && r == Done(|s.snapshots| + 1, true)
            && s'.snapshots == s.snapshots + [Snapshot(|s.snapshots| + 1, ts, hash(p), p, None)]
            && LAMP in s'.tables.entities && s'.tables.entities[LAMP].areaId == p.entities[0]["area_id"]
  {
    NewApplySucceedsIff(hash, s, p, ts);
    NewApplyShape(hash, s, p, ts, -1);
    LampIndexed(p, |s.snapshots| + 1);
    UpsertedAgree(s.tables.entities, p.entities, DeviceAreas(p.devices), |s.snapshots| + 1, ts, LAMP);
  }

  /** Third reading of orphans: after a new version the SQL filter selects what the scan lists. */
  lemma {:induction false} NewApplyOrphans(hash: Hash, s: TopoState, p: Payload, ts: int, faultAt: int, i: int)
    requires Apply(hash, s, p, ts, faultAt).1.Done? && Apply(hash, s, p, ts, faultAt).1.isNew
    requires Tidy(p) && EnabledListed(p, i)
    ensures var s' := Apply(hash, s, p, ts, faultAt).0;
            var id := Field(p.entities[i], "entity_id").value;
            && id in s'.tables.entities && id in s'.index
            && (id in OrphansFrom(p.entities, DeviceAreas(p.devices)) <==> s'.index[id].areaId.None?)
            && (id in OrphansFrom(p.entities, DeviceAreas(p.devices))
                <==> EntitySelected(s'.tables.entities[id], None, true, None))
  {
    var id := Field(p.entities[i], "entity_id").value;
    NewApplyAgrees(hash, s, p, ts, faultAt, id);
    TidyOrphansAgree(p, |s.snapshots| + 1, i);
  }

  lemma ApplyWellKeyed(hash: Hash, s: TopoState, p: Payload, ts: int, faultAt: int)
    requires WellKeyed(s.tables.entities)
    ensures WellKeyed(Apply(hash, s, p, ts, faultAt).0.tables.entities)
  {
    if Apply(hash, s, p, ts, faultAt).1.Done? && Apply(hash, s, p, ts, faultAt).1.isNew {
      NewApplyShape(hash, s, p, ts, faultAt);
      UpsertEntitiesWellKeyed(s.tables.entities, EntityRows(p.entities, DeviceAreas(p.devices), |s.snapshots| + 1, ts));
    } else if faultAt != CALL_INSERT && Apply(hash, s, p, ts, faultAt).1.Raised? {
      FailedApplyShape(hash, s, p, ts, faultAt);
    }
  }

  lemma {:induction false} RunWellKeyed(hash: Hash, calls: seq<Call>)
    ensures WellKeyed(StateAfter(hash, calls).tables.entities)
  {
    if calls != [] {
      var n := |calls| - 1;
      RunWellKeyed(hash, calls[..n]);
      ApplyWellKeyed(hash, StateAfter(hash, calls[..n]), calls[n].payload, calls[n].ts, calls[n].faultAt);
    }
  }

  ghost predicate ShowsId(rows: seq<EntityRow>, id: string) {
    exists r :: r in rows && r.entityId == id
  }

  /** Under a limit no smaller than the table a listing shows exactly the entities the filter selects. */
  lemma ListingShows(
      t: map<string, EntityRow>, areaId: Option<string>, orphan: bool, deviceClass: Option<string>, limit: int,
      rows: seq<EntityRow>, id: string)
    requires WellKeyed(t) && Listed(t, areaId, orphan, deviceClass, limit, rows)
    requires limit < 0 || limit >= |t|
    ensures ShowsId(rows, id) <==> id in t && EntitySelected(t[id], areaId, orphan, deviceClass)
  {
    if id in t && EntitySelected(t[id], areaId, orphan, deviceClass) && 0 <= limit <= |rows| {
      DistinctWithin(rows, t.Keys, id);
    }
  }

  /** As many different rows as there are keys: every key has its row. */
  lemma {:induction false} DistinctWithin(rows: seq<EntityRow>, keys: set<string>, id: string)
    requires forall i, j :: 0 <= i < j < |rows| ==> rows[i].entityId != rows[j].entityId
    requires forall r :: r in rows ==> r.entityId in keys
    requires id in keys && |rows| >= |keys|
    ensures ShowsId(rows, id)
  {
    var n := |rows| - 1;
    var last := rows[n];
    assert last in rows;
    if last.entityId != id {
      forall r | r in rows[..n] ensures r.entityId in keys - {last.entityId} {
        var k :| 0 <= k < n && rows[..n][k] == r;
        assert rows[k] in rows;
      }
      DistinctWithin(rows[..n], keys - {last.entityId}, id);
      var r :| r in rows[..n] && r.entityId == id;
      assert r in rows;
    }
  }

  /**
   Three listings of orphans agree after a refresh with a new, tidy version: an enabled entity of the payload
   is in the scan's list, without an area in the index, and in the table's orphan listing, or in none of them.
   */
  lemma {:induction false} OrphanListingsAgree(hash: Hash, calls: seq<Call>, limit: int, rows: seq<EntityRow>, i: int)
    requires calls != [] && OutcomeAt(hash, calls, |calls| - 1).Done? && OutcomeAt(hash, calls, |calls| - 1).isNew
    requires Tidy(calls[|calls| - 1].payload) && EnabledListed(calls[|calls| - 1].payload, i)
    requires Listed(StateAfter(hash, calls).tables.entities, None, true, None, limit, rows)
    requires limit < 0 || limit >= |StateAfter(hash, calls).tables.entities|
    ensures var s := StateAfter(hash, calls);
            var p := calls[|calls| - 1].payload;
            var id := Field(p.entities[i], "entity_id").value;
            && id in s.index
            && (id in OrphansFrom(p.entities, DeviceAreas(p.devices)) <==> s.index[id].areaId.None?)
            && (id in OrphansFrom(p.entities, DeviceAreas(p.devices)) <==> ShowsId(rows, id))
  {
    var n := |calls| - 1;
    var c := calls[n];
    NewApplyOrphans(hash, StateAfter(hash, calls[..n]), c.payload, c.ts, c.faultAt, i);
    RunWellKeyed(hash, calls);
    ListingShows(StateAfter(hash, calls).tables.entities, None, true, None, limit, rows,
                 Field(c.payload.entities[i], "entity_id").value);
  }
}
