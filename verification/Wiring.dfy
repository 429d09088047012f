/**
 The event handler of main.py around one pipeline and one orchestrator sharing a store and an index:
 a registry refresh is a handful of steps of the machine, so a process that mixes submits, flushes and
 refreshes in any order stays within the runs that the machine's theorems speak of.
 */
module Wiring {
  import opened Prelude
  import opened Store
  import opened Topology
  import opened Snapshots
  import opened Orchestrator
  import opened TopologyRuns
  import opened Machine
  import opened Pipeline

  /** The stored payloads by snapshot id. */
  function VersionMap(snaps: seq<Snapshot>): (m: map<int, Payload>)
    ensures forall i :: i in m <==> 1 <= i <= |snaps|
    ensures forall i :: i in m ==> m[i] == snaps[i - 1].payload
  {
    if snaps == [] then map[]
    else VersionMap(snaps[..|snaps| - 1])[|snaps| := snaps[|snaps| - 1].payload]
  }

  /** The machine's topology variables are those of the orchestrator's state. */
  predicate Mirrors(s: State, t: TopoState) {
    s.snapshots == VersionMap(t.snapshots) && s.index == t.index && s.tables.entities == t.tables.entities
  }

  /** Two machine states that differ in topology and history only. */
  ghost predicate SamePipeline(s: State, s': State) {
    && s'.buffer == s.buffer && s'.firstAdded == s.firstAdded && s'.matchers == s.matchers
    && s'.waiting == s.waiting && s'.dropping == s.dropping && s'.phase == s.phase && s'.clock == s.clock
    && s'.tables == s.tables.(entities := s'.tables.entities)
  }

  lemma OldVersionReachable(c: Config, s: State, t: TopoState, p: Payload, ts: int, faultAt: int) returns (s': State)
    requires Reachable(c, s) && Mirrors(s, t) && Versioned(c.hash, t.snapshots)
    requires faultAt != CALL_INSERT && FindHash(t.snapshots, c.hash(p)).Some?
    ensures Reachable(c, s') && Mirrors(s', Apply(c.hash, t, p, ts, faultAt).0) && SamePipeline(s, s')
  {
    var i := FindHash(t.snapshots, c.hash(p)).value;
    var v := t.snapshots[i].snapshotId;
    assert v in s.snapshots && s.snapshots[v] == t.snapshots[i].payload;
    s' := RebuiltReachable(c, s, v, p);
  }

  lemma RebuiltReachable(c: Config, s: State, v: int, p: Payload) returns (s': State)
    requires Reachable(c, s) && v in s.snapshots && c.hash(s.snapshots[v]) == c.hash(p)
    ensures Reachable(c, s') && s' == s.(index := Build(p, v), indexId := v)
  {
    ReachNext(c, s, Rebuild(v, p));
    s' := Exec(c, s, Rebuild(v, p));
  }

  lemma NewVersionReachable(c: Config, s: State, t: TopoState, p: Payload, ts: int, faultAt: int) returns (s': State)
    requires Reachable(c, s) && Mirrors(s, t)
    requires faultAt != CALL_INSERT && FindHash(t.snapshots, c.hash(p)).None?
    ensures Reachable(c, s') && Mirrors(s', Apply(c.hash, t, p, ts, faultAt).0) && SamePipeline(s, s')
  {
    var row := Snapshot(|t.snapshots| + 1, ts, c.hash(p), p, None);
    if Apply(c.hash, t, p, ts, faultAt).1.Raised? {
      FailedApplyShape(c.hash, t, p, ts, faultAt);
      s' := StoredReachable(c, s, t.snapshots, row);
    } else {
      NewApplyShape(c.hash, t, p, ts, faultAt);
      var s1 := StoredReachable(c, s, t.snapshots, row);
      s' := UpsertedReachable(c, s1, p, row.snapshotId, ts);
    }
  }

  lemma StoredReachable(c: Config, s: State, snaps: seq<Snapshot>, row: Snapshot) returns (s': State)
    requires Reachable(c, s) && s.snapshots == VersionMap(snaps) && row.snapshotId == |snaps| + 1
    ensures Reachable(c, s') && s' == s.(snapshots := VersionMap(snaps + [row]))
    ensures row.snapshotId in s'.snapshots && s'.snapshots[row.snapshotId] == row.payload
  {
    var st := StoreVersion(row.snapshotId, row.payload);
    ReachNext(c, s, st);
    s' := Exec(c, s, st);
    assert (snaps + [row])[..|snaps|] == snaps;
  }

  lemma UpsertedReachable(c: Config, s: State, p: Payload, v: int, ts: int) returns (s': State)
    requires Reachable(c, s) && v in s.snapshots && s.snapshots[v] == p
    ensures Reachable(c, s') && SamePipeline(s, s') && s'.snapshots == s.snapshots && s'.index == Build(p, v)
    ensures s'.tables.entities
            == UpsertEntities(s.tables.entities, EntityRows(p.entities, DeviceAreas(p.devices), v, ts))
  {
    var rows := EntityRows(p.entities, DeviceAreas(p.devices), v, ts);
    EntityRowsStart(p.entities, DeviceAreas(p.devices), v, ts);
    ReachNext(c, s, UpsertRows(rows));
    var s2 := Exec(c, s, UpsertRows(rows));
    s' := RebuiltReachable(c, s2, v, p);
  }

  /** Every outcome of a refresh, failures included, is reached by steps of the machine. */
  lemma RefreshReachable(c: Config, s: State, t: TopoState, p: Payload, ts: int, faultAt: int) returns (s': State)
    requires Reachable(c, s) && Mirrors(s, t) && Versioned(c.hash, t.snapshots)
    ensures Reachable(c, s') && Mirrors(s', Apply(c.hash, t, p, ts, faultAt).0) && SamePipeline(s, s')
  {
    if faultAt == CALL_INSERT {
      s' := s;
    } else if FindHash(t.snapshots, c.hash(p)).Some? {
      s' := OldVersionReachable(c, s, t, p, ts, faultAt);
    } else {
      s' := NewVersionReachable(c, s, t, p, ts, faultAt);
    }
  }

  ghost predicate Wired(pipe: IngestPipeline, orch: TopologyOrchestrator)
    reads pipe, pipe.dao, pipe.idx, orch.snap
  {
    && pipe.Valid() && orch.dao == pipe.dao && orch.idx == pipe.idx
    && pipe.cfg.hash == orch.snap.hash && Versioned(orch.snap.hash, orch.snap.snapshots)
    && pipe.model.snapshots == VersionMap(orch.snap.snapshots)
  }

  /** The `*_registry_updated` branch: apply the fetched payload, swallowing any exception. */
  method OnRegistryUpdated(pipe: IngestPipeline, orch: TopologyOrchestrator, p: Payload, ts: int, faultAt: int)
    returns (r: Outcome)
    requires Wired(pipe, orch)
    modifies pipe`model, orch.snap, orch.idx, orch.dao
    ensures Wired(pipe, orch)
    ensures (orch.State(), r) == Apply(orch.snap.hash, old(orch.State()), p, ts, faultAt)
    ensures pipe.buffer == old(pipe.buffer) && pipe.firstAdded == old(pipe.firstAdded)
  {
    ghost var t := orch.State();
    ghost var s := pipe.model;
    r := orch.ApplyPayload(p, ts, faultAt);
    ghost var s' := RefreshReachable(pipe.cfg, s, t, p, ts, faultAt);
    pipe.model := s';
    ApplyFrame(orch.snap.hash, t, p, ts, faultAt);
  }

  /** A refresh writes neither events nor counters. */
  lemma ApplyFrame(hash: Hash, t: TopoState, p: Payload, ts: int, faultAt: int)
    ensures var t' := Apply(hash, t, p, ts, faultAt).0;
            && t'.tables.events == t.tables.events && t'.tables.counters == t.tables.counters
            && t'.tables.drops == t.tables.drops
  {
  }
}
