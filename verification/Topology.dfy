/**
 Registry payloads, the in-memory entity index (topology/entity_index.py) and the orphan scan
 (topology/orphan_detector.py). A registry object is a map from keys to strings or null.
 */
module Topology {
  import opened Prelude

  type Dict = map<string, Option<string>>

  /** Python's `d.get(k)`. */
  function Field(d: Dict, k: string): Option<string> {
    if k in d then d[k] else None
  }

  datatype Payload = Payload(areas: seq<Dict>, devices: seq<Dict>, entities: seq<Dict>)

  datatype EntityRef = EntityRef(
    deviceId: Option<string>, areaId: Option<string>, deviceClass: Option<string>, snapshotId: int)

  type Index = map<string, EntityRef>

  function RefIn(idx: Index, id: string): Option<EntityRef> {
    if id in idx then Some(idx[id]) else None
  }

  /** The comprehension `{d["device_id"]: d.get("area_id") ... if "device_id" in d}`; the last one wins. */
  function DeviceAreas(devices: seq<Dict>): map<Option<string>, Option<string>> {
    if devices == [] then map[]
    else
      var front := DeviceAreas(devices[..|devices| - 1]);
      var d := devices[|devices| - 1];
      if "device_id" in d then front[d["device_id"] := Field(d, "area_id")] else front
  }

  function DeviceArea(dm: map<Option<string>, Option<string>>, dev: Option<string>): Option<string> {
    if dev in dm then dm[dev] else None
  }

  function RefOf(e: Dict, dm: map<Option<string>, Option<string>>, sid: int): EntityRef {
    var dev := Field(e, "device_id");
    EntityRef(dev, Or(Field(e, "area_id"), DeviceArea(dm, dev)), Field(e, "device_class"), sid)
  }

  function BuildFrom(es: seq<Dict>, dm: map<Option<string>, Option<string>>, sid: int): Index {
    if es == [] then map[]
    else
      var front := BuildFrom(es[..|es| - 1], dm, sid);
      var e := es[|es| - 1];
      var id := Field(e, "entity_id");
      if Truthy(id) then front[id.value := RefOf(e, dm, sid)] else front
  }

  /** The index map of one payload, stamped with one snapshot id. */
  function Build(p: Payload, sid: int): Index {
    BuildFrom(p.entities, DeviceAreas(p.devices), sid)
  }

  /** The object with this id under this key is described by `ds[i]` and by nothing after it. */
  ghost predicate LastListing(ds: seq<Dict>, key: string, id: string, i: int) {
    && 0 <= i < |ds|
    && Field(ds[i], key) == Some(id)
    && forall j :: i < j < |ds| ==> Field(ds[j], key) != Some(id)
  }

  /** Where the object with this id is listed last, -1 if nowhere. */
  function LastIndex(ds: seq<Dict>, key: string, id: string): (i: int)
    ensures i == -1 ==> forall j :: 0 <= j < |ds| ==> Field(ds[j], key) != Some(id)
    ensures i != -1 ==> LastListing(ds, key, id, i)
  {
    if ds == [] then -1
    else if Field(ds[|ds| - 1], key) == Some(id) then |ds| - 1
    else LastIndex(ds[..|ds| - 1], key, id)
  }

  ghost predicate Lists(p: Payload, id: string) {
    id != "" && exists i :: 0 <= i < |p.entities| && Field(p.entities[i], "entity_id") == Some(id)
  }

  /** The index holds exactly the listed ids ... */
  lemma {:induction false} BuildKeys(es: seq<Dict>, dm: map<Option<string>, Option<string>>, sid: int, id: string)
    ensures id in BuildFrom(es, dm, sid)
            <==> id != "" && exists i :: 0 <= i < |es| && Field(es[i], "entity_id") == Some(id)
  {
    if es != [] {
      var n := |es| - 1;
      BuildKeys(es[..n], dm, sid, id);
      if id in BuildFrom(es[..n], dm, sid) {
        var i :| 0 <= i < n && Field(es[..n][i], "entity_id") == Some(id);
        assert Field(es[i], "entity_id") == Some(id);
      }
      if id != "" && exists i :: 0 <= i < |es| && Field(es[i], "entity_id") == Some(id) {
        var i :| 0 <= i < |es| && Field(es[i], "entity_id") == Some(id);
        if i < n {
          assert Field(es[..n][i], "entity_id") == Some(id);
        }
      }
    }
  }

  /** ... and describes each by its last listing. */
  lemma {:induction false} BuildLast(
      es: seq<Dict>, dm: map<Option<string>, Option<string>>, sid: int, id: string, i: int)
    requires id != "" && LastListing(es, "entity_id", id, i)
    ensures id in BuildFrom(es, dm, sid)
    ensures BuildFrom(es, dm, sid)[id] == RefOf(es[i], dm, sid)
  {
    var n := |es| - 1;
    if i < n {
      assert Field(es[n], "entity_id") != Some(id);
      BuildLast(es[..n], dm, sid, id, i);
    }
  }

  /** Every entry carries the snapshot id of its build. */
  lemma {:induction false} BuildStamps(es: seq<Dict>, dm: map<Option<string>, Option<string>>, sid: int)
    ensures forall id :: id in BuildFrom(es, dm, sid) ==> BuildFrom(es, dm, sid)[id].snapshotId == sid
  {
    if es != [] {
      BuildStamps(es[..|es| - 1], dm, sid);
    }
  }

  // ---------- attribution, said of the payload alone ----------

  /** The key holds a non-empty string. */
  predicate Named(d: Dict, k: string) {
    k in d && d[k] != None && d[k] != Some("")
  }

  /** The last device listing under this id, which may be null. */
  ghost predicate LastDevice(devices: seq<Dict>, dev: Option<string>, j: int) {
    && 0 <= j < |devices| && "device_id" in devices[j] && devices[j]["device_id"] == dev
    && forall l :: j < l < |devices| && "device_id" in devices[l] ==> devices[l]["device_id"] != dev
  }

  /** The device columns of an entity listing, and its own area if it names one, else its device's if that is listed. */
  ghost predicate AttributedAs(
      p: Payload, e: Dict, deviceId: Option<string>, areaId: Option<string>, deviceClass: Option<string>) {
    && deviceId == (if "device_id" in e then e["device_id"] else None)
    && deviceClass == (if "device_class" in e then e["device_class"] else None)
    && (Named(e, "area_id") ==> areaId == e["area_id"])
    && (!Named(e, "area_id") ==>
          && (forall j :: LastDevice(p.devices, deviceId, j) ==>
                areaId == if "area_id" in p.devices[j] then p.devices[j]["area_id"] else None)
          && ((forall l :: 0 <= l < |p.devices| && "device_id" in p.devices[l] ==> p.devices[l]["device_id"] != deviceId)
              ==> areaId == None))
  }

  lemma {:induction false} DeviceAreasAre(devices: seq<Dict>, dev: Option<string>)
    ensures forall j :: LastDevice(devices, dev, j) ==>
              DeviceArea(DeviceAreas(devices), dev) == if "area_id" in devices[j] then devices[j]["area_id"] else None
    ensures (forall l :: 0 <= l < |devices| && "device_id" in devices[l] ==> devices[l]["device_id"] != dev)
            ==> dev !in DeviceAreas(devices)
  {
    if devices != [] {
      var n := |devices| - 1;
      DeviceAreasAre(devices[..n], dev);
      forall j | LastDevice(devices, dev, j)
        ensures DeviceArea(DeviceAreas(devices), dev) == if "area_id" in devices[j] then devices[j]["area_id"] else None
      {
        if j < n {
          assert LastDevice(devices[..n], dev, j);
        }
      }
      assert forall l :: 0 <= l < n ==> devices[..n][l] == devices[l];
    }
  }

  lemma RefIs(p: Payload, e: Dict, sid: int)
    ensures var ref := RefOf(e, DeviceAreas(p.devices), sid);
            AttributedAs(p, e, ref.deviceId, ref.areaId, ref.deviceClass) && ref.snapshotId == sid
  {
    DeviceAreasAre(p.devices, if "device_id" in e then e["device_id"] else None);
  }

  /** An index entry carries the columns of the entity's last listing, its own area before its device's. */
  lemma EntryIs(p: Payload, sid: int, id: string, i: int)
    requires id != "" && 0 <= i < |p.entities| && "entity_id" in p.entities[i] && p.entities[i]["entity_id"] == Some(id)
    requires forall j :: i < j < |p.entities| && "entity_id" in p.entities[j] ==> p.entities[j]["entity_id"] != Some(id)
    ensures id in Build(p, sid)
    ensures var ref := Build(p, sid)[id];
            AttributedAs(p, p.entities[i], ref.deviceId, ref.areaId, ref.deviceClass) && ref.snapshotId == sid
  {
    BuildLast(p.entities, DeviceAreas(p.devices), sid, id, i);
    RefIs(p, p.entities[i], sid);
  }

  /** In particular an entity that names an area is indexed under it, wherever its device is. */
  lemma OwnAreaWins(p: Payload, sid: int, id: string, i: int)
    requires id != "" && LastListing(p.entities, "entity_id", id, i) && Named(p.entities[i], "area_id")
    ensures id in Build(p, sid) && Build(p, sid)[id].areaId == p.entities[i]["area_id"]
  {
    EntryIs(p, sid, id, i);
  }

  /** The lock-free cache: readers see `entries`, which a rebuild replaces in one assignment. */
  class EntityIndex {
    var entries: Index

    constructor ()
      ensures entries == map[]
    {
      entries := map[];
    }

    function Lookup(id: string): Option<EntityRef>
      reads this
    {
      RefIn(entries, id)
    }

    static method BuildMap(p: Payload, sid: int) returns (out: Index)
      ensures out == Build(p, sid)
    {
      var dm := DeviceAreas(p.devices);
      out := map[];
      for i := 0 to |p.entities|
        invariant out == BuildFrom(p.entities[..i], dm, sid)
      {
        var e := p.entities[i];
        assert p.entities[..i + 1][..i] == p.entities[..i];
        var id := Field(e, "entity_id");
        if !Truthy(id) { continue; }
        var dev := Field(e, "device_id");
        var area := Or(Field(e, "area_id"), DeviceArea(dm, dev));
        out := out[id.value := EntityRef(dev, area, Field(e, "device_class"), sid)];
      }
      assert p.entities[..|p.entities|] == p.entities;
    }

    method RebuildFromPayload(p: Payload, sid: int)
      modifies this
      ensures entries == Build(p, sid)
    {
      var rebuilt := BuildMap(p, sid);
      entries := rebuilt;
    }
  }

  // ---------- orphans ----------

  predicate Disabled(e: Dict) {
    Truthy(Field(e, "disabled_by"))
  }

  predicate ScannedAsOrphan(e: Dict, dm: map<Option<string>, Option<string>>) {
    var dev := Field(e, "device_id");
    && !Disabled(e)
    && !Truthy(Field(e, "area_id"))
    && !(Truthy(dev) && Truthy(DeviceArea(dm, dev)))
    && Truthy(Field(e, "entity_id"))
  }

  function OrphansFrom(es: seq<Dict>, dm: map<Option<string>, Option<string>>): seq<string> {
    if es == [] then []
    else
      var e := es[|es| - 1];
      OrphansFrom(es[..|es| - 1], dm)
      + (if ScannedAsOrphan(e, dm) then [Field(e, "entity_id").value] else [])
  }

  method FindOrphans(p: Payload) returns (orphans: seq<string>)
    ensures orphans == OrphansFrom(p.entities, DeviceAreas(p.devices))
  {
    var dm := DeviceAreas(p.devices);
    orphans := [];
    for i := 0 to |p.entities|
      invariant orphans == OrphansFrom(p.entities[..i], dm)
    {
      var e := p.entities[i];
      assert p.entities[..i + 1][..i] == p.entities[..i];
      if Truthy(Field(e, "disabled_by")) { continue; }
      if Truthy(Field(e, "area_id")) { continue; }
      var dev := Field(e, "device_id");
      if Truthy(dev) && Truthy(DeviceArea(dm, dev)) { continue; }
      var id := Field(e, "entity_id");
      if Truthy(id) {
        orphans := orphans + [id.value];
      }
    }
    assert p.entities[..|p.entities|] == p.entities;
  }

  lemma {:induction false} OrphansAre(es: seq<Dict>, dm: map<Option<string>, Option<string>>, id: string)
    ensures id in OrphansFrom(es, dm)
            <==> exists i :: 0 <= i < |es| && Field(es[i], "entity_id") == Some(id) && ScannedAsOrphan(es[i], dm)
  {
    if es != [] {
      var n := |es| - 1;
      OrphansAre(es[..n], dm, id);
      if id in OrphansFrom(es[..n], dm) {
        var i :| 0 <= i < n && Field(es[..n][i], "entity_id") == Some(id) && ScannedAsOrphan(es[..n][i], dm);
        assert Field(es[i], "entity_id") == Some(id) && ScannedAsOrphan(es[i], dm);
      }
      if i :| 0 <= i < |es| && Field(es[i], "entity_id") == Some(id) && ScannedAsOrphan(es[i], dm) {
        if i < n {
          assert Field(es[..n][i], "entity_id") == Some(id) && ScannedAsOrphan(es[..n][i], dm);
        }
      }
    }
  }

  /** The entity names a device whose last listing names an area. */
  ghost predicate Housed(p: Payload, e: Dict) {
    Named(e, "device_id")
    && exists j :: LastDevice(p.devices, e["device_id"], j) && Named(p.devices[j], "area_id")
  }

  /** The scan lists an id exactly when some listing of it is enabled, names no area and is not housed. */
  lemma OrphansExactly(p: Payload, id: string)
    ensures id in OrphansFrom(p.entities, DeviceAreas(p.devices))
            <==> id != "" && exists i :: 0 <= i < |p.entities| && OrphanListing(p, p.entities[i], id)
  {
    var dm := DeviceAreas(p.devices);
    OrphansAre(p.entities, dm, id);
    forall i | 0 <= i < |p.entities|
      ensures Field(p.entities[i], "entity_id") == Some(id) && ScannedAsOrphan(p.entities[i], dm)
              <==> id != "" && OrphanListing(p, p.entities[i], id)
    {
      HousedIs(p, p.entities[i]);
    }
  }

  ghost predicate OrphanListing(p: Payload, e: Dict, id: string) {
    "entity_id" in e && e["entity_id"] == Some(id)
    && !Named(e, "disabled_by") && !Named(e, "area_id") && !Housed(p, e)
  }

  lemma HousedIs(p: Payload, e: Dict)
    ensures Housed(p, e) <==> Named(e, "device_id") && Truthy(DeviceArea(DeviceAreas(p.devices), e["device_id"]))
  {
    if Named(e, "device_id") {
      DeviceAreasAre(p.devices, e["device_id"]);
      if e["device_id"] in DeviceAreas(p.devices) {
        LastDeviceExists(p.devices, e["device_id"]);
      }
    }
  }

  lemma {:induction false} LastDeviceExists(devices: seq<Dict>, dev: Option<string>)
    requires dev in DeviceAreas(devices)
    ensures exists j :: LastDevice(devices, dev, j)
  {
    var n := |devices| - 1;
    if "device_id" in devices[n] && devices[n]["device_id"] == dev {
      assert LastDevice(devices, dev, n);
    } else {
      LastDeviceExists(devices[..n], dev);
      var j :| LastDevice(devices[..n], dev, j);
      assert LastDevice(devices, dev, j);
    }
  }

  /** No two entries share a non-empty id. */
  ghost predicate UniqueIds(p: Payload) {
    forall i, j :: 0 <= i < j < |p.entities| && Truthy(Field(p.entities[i], "entity_id"))
                   ==> Field(p.entities[i], "entity_id") != Field(p.entities[j], "entity_id")
  }

  /**
   What the scan and the index need in order to read one entity's attribution alike: a named device
   does not report an empty area, and no nameless device lends its area to device-less entities.
   */
  predicate CleanAttribution(e: Dict, dm: map<Option<string>, Option<string>>) {
    var dev := Field(e, "device_id");
    || Truthy(Field(e, "area_id"))
    || (if Truthy(dev) then DeviceArea(dm, dev) != Some("") else DeviceArea(dm, dev).None?)
  }

  ghost predicate EnabledListed(p: Payload, i: int) {
    0 <= i < |p.entities| && Truthy(Field(p.entities[i], "entity_id")) && !Disabled(p.entities[i])
  }

  /**
   The scan lists exactly the enabled entities the index leaves without an area if and only if
   every enabled entity's attribution is clean.
   */
  lemma OrphansAgreeWithIndex(p: Payload, sid: int)
    requires UniqueIds(p)
    ensures var dm := DeviceAreas(p.devices);
            (forall i :: EnabledListed(p, i) ==>
               var id := Field(p.entities[i], "entity_id").value;
               id in Build(p, sid) && (id in OrphansFrom(p.entities, dm) <==> Build(p, sid)[id].areaId.None?))
            <==> forall i :: EnabledListed(p, i) ==> CleanAttribution(p.entities[i], dm)
  {
    forall i | EnabledListed(p, i)
      ensures var dm := DeviceAreas(p.devices);
              var id := Field(p.entities[i], "entity_id").value;
              id in Build(p, sid)
              && ((id in OrphansFrom(p.entities, dm) <==> Build(p, sid)[id].areaId.None?)
                  <==> CleanAttribution(p.entities[i], dm))
    {
      OneOrphanAgrees(p, sid, i);
    }
  }

  lemma OneOrphanAgrees(p: Payload, sid: int, i: int)
    requires UniqueIds(p) && EnabledListed(p, i)
    ensures var dm := DeviceAreas(p.devices);
            var id := Field(p.entities[i], "entity_id").value;
            id in Build(p, sid)
            && ((id in OrphansFrom(p.entities, dm) <==> Build(p, sid)[id].areaId.None?)
                <==> CleanAttribution(p.entities[i], dm))
  {
    var dm := DeviceAreas(p.devices);
    var id := Field(p.entities[i], "entity_id").value;
    BuildLast(p.entities, dm, sid, id, i);
    OrphansAre(p.entities, dm, id);
    assert id in OrphansFrom(p.entities, dm) <==> ScannedAsOrphan(p.entities[i], dm);
  }

  /** Registry data as Home Assistant sends it: named devices, and areas either absent or named. */
  ghost predicate Tidy(p: Payload) {
    && (forall i :: 0 <= i < |p.devices| ==>
          Truthy(Field(p.devices[i], "device_id")) && Field(p.devices[i], "area_id") != Some(""))
    && UniqueIds(p)
  }

  lemma {:induction false} TidyDeviceAreas(devices: seq<Dict>)
    requires forall i :: 0 <= i < |devices| ==>
               Truthy(Field(devices[i], "device_id")) && Field(devices[i], "area_id") != Some("")
    ensures forall k :: k in DeviceAreas(devices) ==> Truthy(k) && DeviceAreas(devices)[k] != Some("")
  {
    if devices != [] {
      TidyDeviceAreas(devices[..|devices| - 1]);
    }
  }

  /** On tidy payloads the two attribution algorithms agree. */
  lemma TidyOrphansAgree(p: Payload, sid: int, i: int)
    requires Tidy(p) && EnabledListed(p, i)
    ensures var id := Field(p.entities[i], "entity_id").value;
            id in Build(p, sid)
            && (id in OrphansFrom(p.entities, DeviceAreas(p.devices)) <==> Build(p, sid)[id].areaId.None?)
  {
    TidyDeviceAreas(p.devices);
    OneOrphanAgrees(p, sid, i);
  }
}
