/**
 Append-only, hash-deduplicated topology versions (topology/snapshot_store.py). The hash of the
 canonical JSON text is a parameter; ids are AUTOINCREMENT over a table that never deletes.
 */
module Snapshots {
  import opened Prelude
  import opened Topology

  type Hash = Payload -> string

  datatype Snapshot = Snapshot(
    snapshotId: int, ts: int, payloadHash: string, payload: Payload, diffSummary: Option<string>)

  ghost predicate CollisionFree(hash: Hash) {
    forall p, q :: hash(p) == hash(q) ==> p == q
  }

  /** Position of the stored snapshot with this hash, if any. */
  function FindHash(snaps: seq<Snapshot>, h: string): (r: Option<nat>)
    ensures r.Some? ==> r.value < |snaps| && snaps[r.value].payloadHash == h
    ensures r.None? ==> forall i :: 0 <= i < |snaps| ==> snaps[i].payloadHash != h
  {
    if snaps == [] then None
    else if snaps[|snaps| - 1].payloadHash == h then Some(|snaps| - 1)
    else FindHash(snaps[..|snaps| - 1], h)
  }

  function Inserted(snaps: seq<Snapshot>, p: Payload, h: string, ts: int, diff: Option<string>): seq<Snapshot> {
    if FindHash(snaps, h).Some? then snaps else snaps + [Snapshot(|snaps| + 1, ts, h, p, diff)]
  }

  /** Ids count up from 1, each row carries its payload's hash, and hashes are unique. */
  ghost predicate Versioned(hash: Hash, snaps: seq<Snapshot>) {
    && (forall i :: 0 <= i < |snaps| ==>
          snaps[i].snapshotId == i + 1 && snaps[i].payloadHash == hash(snaps[i].payload))
    && (forall i, j :: 0 <= i < j < |snaps| ==> snaps[i].payloadHash != snaps[j].payloadHash)
  }

  lemma InsertedVersioned(hash: Hash, snaps: seq<Snapshot>, p: Payload, ts: int, diff: Option<string>)
    requires Versioned(hash, snaps)
    ensures Versioned(hash, Inserted(snaps, p, hash(p), ts, diff))
    ensures snaps <= Inserted(snaps, p, hash(p), ts, diff)
  {
  }

  /** Equal hashes sit at equal positions, so an id names one payload hash for good. */
  lemma HashNamesId(hash: Hash, snaps: seq<Snapshot>, i: int, j: int)
    requires Versioned(hash, snaps) && 0 <= i < |snaps| && 0 <= j < |snaps|
    ensures snaps[i].payloadHash == snaps[j].payloadHash <==> i == j
  {
  }

  class SnapshotStore {
    const hash: Hash
    var snapshots: seq<Snapshot>

    constructor (hash: Hash)
      ensures this.hash == hash && snapshots == []
    {
      this.hash := hash;
      snapshots := [];
    }

    /** `ORDER BY snapshot_id DESC LIMIT 1`; with ids increasing by position, the last row. */
    method GetCurrent() returns (cur: Option<Snapshot>)
      requires Versioned(hash, snapshots)
      ensures cur.None? <==> snapshots == []
      ensures cur.Some? ==>
                cur.value in snapshots
                && forall i :: 0 <= i < |snapshots| ==> snapshots[i].snapshotId <= cur.value.snapshotId
    {
      cur := if snapshots == [] then None else Some(snapshots[|snapshots| - 1]);
    }

    /** The look-up matches any stored version, not only the latest one. */
    method InsertIfChanged(p: Payload, ts: int, diff: Option<string>, fault: bool)
      returns (ok: bool, snapshotId: int, isNew: bool)
      requires Versioned(hash, snapshots)
      modifies this
      ensures Versioned(hash, snapshots) && old(snapshots) <= snapshots
      ensures ok == !fault
      ensures snapshots == if ok then Inserted(old(snapshots), p, hash(p), ts, diff) else old(snapshots)
      ensures ok && isNew ==>
                && snapshotId == |old(snapshots)| + 1
                && snapshots == old(snapshots) + [Snapshot(snapshotId, ts, hash(p), p, diff)]
      ensures ok && !isNew ==> snapshots == old(snapshots)
      ensures ok ==> 1 <= snapshotId <= |snapshots| && snapshots[snapshotId - 1].payloadHash == hash(p)
      ensures ok ==> (isNew <==> forall i :: 0 <= i < |old(snapshots)| ==> old(snapshots)[i].payloadHash != hash(p))
    {
      if fault { return false, 0, false; }
      InsertedVersioned(hash, snapshots, p, ts, diff);
      var found := FindHash(snapshots, hash(p));
      if found.Some? {
        return true, snapshots[found.value].snapshotId, false;
      }
      snapshots := snapshots + [Snapshot(|snapshots| + 1, ts, hash(p), p, diff)];
      return true, |snapshots|, true;
    }
  }
}
