/**
 One topology refresh (topology/orchestrator.py): store the version, upsert the tables when the
 version is new, rebuild the index. Any database call may raise and end the refresh half way.
 */
module Orchestrator {
  import opened Prelude
  import opened Store
  import opened Topology
  import opened Snapshots

  // ---------- rows built from a payload ----------

  /** `a.get("name", a["area_id"])`: an explicit null stays null. */
  function AreaRowOf(a: Dict, sid: int, ts: int): AreaRow
    requires Truthy(Field(a, "area_id"))
  {
    AreaRow(Field(a, "area_id").value,
            if "name" in a then a["name"] else Field(a, "area_id"),
            Field(a, "floor_id"), Field(a, "icon"),
            if "aliases" in a then (if a["aliases"].Some? then a["aliases"].value else "None") else "[]",
            sid, ts, ts)
  }

  function AreaRows(areas: seq<Dict>, sid: int, ts: int): seq<AreaRow> {
    if areas == [] then []
    else
      var a := areas[|areas| - 1];
      AreaRows(areas[..|areas| - 1], sid, ts)
      + (if Truthy(Field(a, "area_id")) then [AreaRowOf(a, sid, ts)] else [])
  }

  function DeviceRowOf(d: Dict, sid: int, ts: int): DeviceRow
    requires Truthy(Field(d, "device_id"))
  {
    DeviceRow(Field(d, "device_id").value, Field(d, "name"), Field(d, "manufacturer"), Field(d, "model"),
              Field(d, "area_id"), Field(d, "sw_version"), sid, ts, ts)
  }

  function DeviceRows(devices: seq<Dict>, sid: int, ts: int): seq<DeviceRow> {
    if devices == [] then []
    else
      var d := devices[|devices| - 1];
      DeviceRows(devices[..|devices| - 1], sid, ts)
      + (if Truthy(Field(d, "device_id")) then [DeviceRowOf(d, sid, ts)] else [])
  }

  /** The part of an entity id before its first dot. */
  function Domain(id: string): (d: string)
    ensures d <= id && '.' !in d
    ensures |d| < |id| ==> id[|d|] == '.'
  {
    if id == "" || id[0] == '.' then "" else [id[0]] + Domain(id[1..])
  }

  function EntityRowOf(e: Dict, dm: map<Option<string>, Option<string>>, sid: int, ts: int): EntityRow
    requires Truthy(Field(e, "entity_id"))
  {
    var id := Field(e, "entity_id").value;
    var dev := Field(e, "device_id");
    EntityRow(id, Field(e, "name"), Domain(id), Field(e, "device_class"), dev,
              Or(Field(e, "area_id"), DeviceArea(dm, dev)), Disabled(e), sid, ts, ts, 0, 0)
  }

  /** The columns of a device's row are those of its listing, absent ones null. */
  lemma DeviceRowIs(d: Dict, sid: int, ts: int)
    requires Named(d, "device_id")
    ensures var r := DeviceRowOf(d, sid, ts);
            && Some(r.deviceId) == d["device_id"]
            && r.name == (if "name" in d then d["name"] else None)
            && r.manufacturer == (if "manufacturer" in d then d["manufacturer"] else None)
            && r.model == (if "model" in d then d["model"] else None)
            && r.areaId == (if "area_id" in d then d["area_id"] else None)
            && r.swVersion == (if "sw_version" in d then d["sw_version"] else None)
            && r.snapshotId == sid && r.firstSeenAt == ts && r.lastSeenAt == ts
  {
  }

  /** An area without a name key is named by its id, one without aliases has the text of an empty list. */
  lemma AreaRowIs(a: Dict, sid: int, ts: int)
    requires Named(a, "area_id")
    ensures var r := AreaRowOf(a, sid, ts);
            && Some(r.areaId) == a["area_id"]
            && r.name == (if "name" in a then a["name"] else a["area_id"])
            && r.floorId == (if "floor_id" in a then a["floor_id"] else None)
            && r.icon == (if "icon" in a then a["icon"] else None)
            && ("aliases" !in a ==> r.aliases == "[]")
            && ("aliases" in a && a["aliases"].None? ==> r.aliases == "None")
            && ("aliases" in a && a["aliases"].Some? ==> r.aliases == a["aliases"].value)
            && r.snapshotId == sid && r.firstSeenAt == ts && r.lastSeenAt == ts
  {
  }

  /** An entity's row: attributed as the payload says, disabled exactly if a disabler is named, counts at zero. */
  lemma EntityRowIs(p: Payload, e: Dict, sid: int, ts: int)
    requires Named(e, "entity_id")
    ensures var r := EntityRowOf(e, DeviceAreas(p.devices), sid, ts);
            && Some(r.entityId) == e["entity_id"]
            && r.friendlyName == (if "name" in e then e["name"] else None)
            && r.domain <= r.entityId && '.' !in r.domain
            && (r.domain == r.entityId || r.domain + "." <= r.entityId)
            && AttributedAs(p, e, r.deviceId, r.areaId, r.deviceClass)
            && (r.disabled <==> Named(e, "disabled_by"))
            && r.snapshotId == sid && r.firstSeenAt == ts && r.lastSeenAt == ts
            && r.eventCount24h == 0 && r.totalEventCount == 0
  {
    RefIs(p, e, sid);
  }

  function EntityRows(es: seq<Dict>, dm: map<Option<string>, Option<string>>, sid: int, ts: int): seq<EntityRow> {
    if es == [] then []
    else
      var e := es[|es| - 1];
      EntityRows(es[..|es| - 1], dm, sid, ts)
      + (if Truthy(Field(e, "entity_id")) then [EntityRowOf(e, dm, sid, ts)] else [])
  }

  /** `d["device_id"]` raises on a device without that key. */
  predicate EveryDeviceKeyed(p: Payload) {
    forall i :: 0 <= i < |p.devices| ==> "device_id" in p.devices[i]
  }

  predicate EveryAreaNamed(rows: seq<AreaRow>) {
    forall i :: 0 <= i < |rows| ==> rows[i].name.Some?
  }

  // ---------- one refresh ----------

  datatype Outcome = Done(snapshotId: int, isNew: bool) | Raised

  datatype TopoState = TopoState(snapshots: seq<Snapshot>, tables: Tables, index: Index)

  const START := TopoState([], EMPTY_TABLES, map[])

  /** Database calls of a refresh, numbered as `faultAt` counts them. */
  const CALL_INSERT := 0
  const CALL_AREAS := 1
  const CALL_DEVICES := 2
  const CALL_ENTITIES := 3

  /** The upserts in order; the flag says whether all went through. */
  function UpsertAll(t: Tables, p: Payload, sid: int, ts: int, faultAt: int): (Tables, bool) {
    var ar := AreaRows(p.areas, sid, ts);
    if ar != [] && (faultAt == CALL_AREAS || !EveryAreaNamed(ar)) then (t, false)
    else
      var t1 := t.(areas := UpsertAreas(t.areas, ar));
      var dr := DeviceRows(p.devices, sid, ts);
      if dr != [] && faultAt == CALL_DEVICES then (t1, false)
      else
        var t2 := t1.(devices := UpsertDevices(t1.devices, dr));
        if !EveryDeviceKeyed(p) then (t2, false)
        else
          var er := EntityRows(p.entities, DeviceAreas(p.devices), sid, ts);
          if er != [] && faultAt == CALL_ENTITIES then (t2, false)
          else (t2.(entities := UpsertEntities(t2.entities, er)), true)
  }

  function Apply(hash: Hash, s: TopoState, p: Payload, ts: int, faultAt: int): (TopoState, Outcome) {
    if faultAt == CALL_INSERT then (s, Raised)
    else
      var found := FindHash(s.snapshots, hash(p));
      if found.Some? then
        var sid := s.snapshots[found.value].snapshotId;
        (s.(index := Build(p, sid)), Done(sid, false))
      else
        var snaps := Inserted(s.snapshots, p, hash(p), ts, None);
        var sid := |snaps|;
        var (t, ok) := UpsertAll(s.tables, p, sid, ts, faultAt);
        if ok then (TopoState(snaps, t, Build(p, sid)), Done(sid, true))
        else (TopoState(snaps, t, s.index), Raised)
  }

  class TopologyOrchestrator {
    const snap: SnapshotStore
    const idx: EntityIndex
    const dao: StoreDAO

    ghost function State(): TopoState
      reads snap, idx, dao
    {
      TopoState(snap.snapshots, dao.Contents(), idx.entries)
    }

    constructor (snap: SnapshotStore, idx: EntityIndex, dao: StoreDAO)
      ensures this.snap == snap && this.idx == idx && this.dao == dao
    {
      this.snap, this.idx, this.dao := snap, idx, dao;
    }

    method ApplyPayload(p: Payload, ts: int, faultAt: int) returns (r: Outcome)
      requires Versioned(snap.hash, snap.snapshots)
      modifies snap, idx, dao
      ensures Versioned(snap.hash, snap.snapshots)
      ensures (State(), r) == Apply(snap.hash, old(State()), p, ts, faultAt)
    {
      var ok, sid, isNew := snap.InsertIfChanged(p, ts, None, faultAt == CALL_INSERT);
      if !ok { return Raised; }
      if isNew {
        var done := UpsertTables(p, sid, ts, faultAt);
        if !done { return Raised; }
      } else {
        HashNamesId(snap.hash, old(snap.snapshots), sid - 1, FindHash(old(snap.snapshots), snap.hash(p)).value);
      }
      idx.RebuildFromPayload(p, sid);
      return Done(sid, isNew);
    }

    method UpsertTables(p: Payload, sid: int, ts: int, faultAt: int) returns (ok: bool)
      modifies dao
      ensures (dao.Contents(), ok) == UpsertAll(old(dao.Contents()), p, sid, ts, faultAt)
    {
      ok := dao.UpsertAreaRows(AreaRows(p.areas, sid, ts), faultAt == CALL_AREAS);
      if !ok { return; }
      ok := dao.UpsertDeviceRows(DeviceRows(p.devices, sid, ts), faultAt == CALL_DEVICES);
      if !ok { return; }
      if !EveryDeviceKeyed(p) { return false; }
      ok := dao.UpsertEntityRows(EntityRows(p.entities, DeviceAreas(p.devices), sid, ts), faultAt == CALL_ENTITIES);
    }
  }
}
