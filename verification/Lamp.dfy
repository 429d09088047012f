/** One lamp that moves between two rooms, for the concrete runs elsewhere. */
module Lamp {
  import opened Prelude
  import opened Topology
  import opened Batches

  const LAMP := "light.lamp"
  const LAMP_IN_HALL := Payload([], [], [map["entity_id" := Some(LAMP), "area_id" := Some("hall")]])
  const LAMP_IN_DEN := Payload([], [], [map["entity_id" := Some(LAMP), "area_id" := Some("den")]])

  function LampOn(ts: int): HAEvent {
    HAEvent(ts, LAMP, "state_changed", None, Some("on"), None, None)
  }

  lemma LampIndexed(p: Payload, sid: int)
    requires p == LAMP_IN_HALL || p == LAMP_IN_DEN
    ensures LAMP in Build(p, sid) && Build(p, sid)[LAMP].areaId == p.entities[0]["area_id"]
  {
    assert LastListing(p.entities, "entity_id", LAMP, 0);
    BuildLast(p.entities, DeviceAreas(p.devices), sid, LAMP, 0);
  }
}
