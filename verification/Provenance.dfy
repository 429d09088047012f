/** Where the snapshot id and the attribution of a stored row come from. */
module Provenance {
  import opened Prelude
  import opened Store
  import opened Topology
  import opened Snapshots
  import opened Privacy
  import opened Batches
  import opened Machine
  import opened Conservation
  import opened Lamp

  /** The whole index map of a stored version; version 0 is the empty index of a fresh process. */
  function IndexOf(snaps: map<int, Payload>, v: int): Index {
    if v in snaps then Build(snaps[v], v) else map[]
  }

  predicate Known(snaps: map<int, Payload>, v: int) {
    v == 0 || v in snaps
  }

  function SidIn(idx: Index, id: string): int {
    if id in idx then idx[id].snapshotId else 0
  }

  ghost predicate TicketTraced(snaps: map<int, Payload>, t: Ticket) {
    Known(snaps, t.at) && t.p.sid == SidIn(IndexOf(snaps, t.at), t.p.ev.entityId)
  }

  ghost predicate Traced(s: State) {
    && 0 !in s.snapshots
    && Known(s.snapshots, s.indexId) && s.index == IndexOf(s.snapshots, s.indexId)
    && (forall i :: 0 <= i < |s.hist.arrived| ==> TicketTraced(s.snapshots, s.hist.arrived[i]))
    && (forall b :: 0 <= b < |s.hist.batches| ==>
          Known(s.snapshots, s.hist.batches[b].usedId)
          && s.hist.batches[b].used == IndexOf(s.snapshots, s.hist.batches[b].usedId))
    && (s.phase.Inserting? ==>
          Known(s.snapshots, s.phase.usedId) && s.phase.used == IndexOf(s.snapshots, s.phase.usedId))
  }

  lemma StepTraced(c: Config, s: State, st: Step)
    requires CollisionFree(c.hash) && Traced(s)
    ensures Traced(Exec(c, s, st))
  {
    if Enabled(c, s, st) {
      match st
      case StoreVersion(v, p) => StoredVersionTraced(s, v, p);
      case Rebuild(v, p) => assert s.snapshots[v] == p;
      case Crash(m, now) =>
      case Submit(ev, nowMs) =>
        TopologyStands(c, s, st);
        EventsStand(c, s, st);
        InsertingStands(c, s, st);
      case InsertOk =>
        TopologyStands(c, s, st);
        SubmitsStand(c, s, st);
      case _ => OthersTraced(c, s, st);
    }
  }

  lemma OthersTraced(c: Config, s: State, st: Step)
    requires Traced(s)
    requires !st.StoreVersion? && !st.Rebuild? && !st.Crash? && !st.Submit? && !st.InsertOk?
    ensures Traced(Exec(c, s, st))
  {
    TopologyStands(c, s, st);
    SubmitsStand(c, s, st);
    EventsStand(c, s, st);
    if !IsCommitStart(st) {
      InsertingStands(c, s, st);
    } else {
      StartUses(c, s, st);
    }
  }

  /** A starting commit takes the current index. */
  lemma StartUses(c: Config, s: State, st: Step)
    requires IsCommitStart(st)
    ensures var ph := Exec(c, s, st).phase;
            ph.Inserting? ==> ph == s.phase || (ph.used == s.index && ph.usedId == s.indexId)
  {
  }

  lemma StoredVersionTraced(s: State, v: int, p: Payload)
    requires Traced(s) && v >= 1 && v !in s.snapshots
    ensures Traced(s.(snapshots := s.snapshots[v := p]))
  {
    var snaps := s.snapshots[v := p];
    assert forall w :: Known(s.snapshots, w) ==> Known(snaps, w) && IndexOf(snaps, w) == IndexOf(s.snapshots, w);
    forall i | 0 <= i < |s.hist.arrived| ensures TicketTraced(snaps, s.hist.arrived[i]) {
      assert TicketTraced(s.snapshots, s.hist.arrived[i]);
    }
  }

  lemma {:induction false} AlwaysTraced(c: Config, m: Matcher, t0: real, steps: seq<Step>)
    requires CollisionFree(c.hash)
    ensures Traced(After(c, Initial(m, t0), steps))
  {
    if steps != [] {
      AlwaysTraced(c, m, t0, steps[..|steps| - 1]);
      StepTraced(c, After(c, Initial(m, t0), steps[..|steps| - 1]), steps[|steps| - 1]);
    }
  }

  /** A ticket's snapshot id names a stored payload that lists the entity, or is 0 for an unlisted one. */
  lemma SidNamesListing(snaps: map<int, Payload>, t: Ticket)
    requires TicketTraced(snaps, t) && 0 !in snaps
    ensures t.p.sid == 0 ==> t.p.ev.entityId !in IndexOf(snaps, t.at)
    ensures t.p.sid != 0 ==> t.p.sid == t.at && t.p.sid in snaps && Lists(snaps[t.p.sid], t.p.ev.entityId)
  {
    if t.at in snaps {
      var p := snaps[t.at];
      BuildKeys(p.entities, DeviceAreas(p.devices), t.at, t.p.ev.entityId);
      BuildStamps(p.entities, DeviceAreas(p.devices), t.at);
    }
  }

  /** The row's device, area and class are what this index says of its entity. */
  predicate AttributedBy(r: EventRow, idx: Index) {
    if r.entityId in idx then
      var ref := idx[r.entityId];
      r.deviceId == ref.deviceId && r.areaId == ref.areaId && r.deviceClass == ref.deviceClass
    else
      r.deviceId.None? && r.areaId.None? && r.deviceClass.None?
  }

  /**
   For every stored row of every run: its snapshot id is 0, the entity being unknown at submit, or
   names a stored payload listing the entity; and the attribution of the whole batch comes from one
   whole index map, that of a stored version.
   */
  lemma {:induction false} RowProvenance(c: Config, m: Matcher, t0: real, steps: seq<Step>, i: nat)
    requires CollisionFree(c.hash) && i < |After(c, Initial(m, t0), steps).tables.events|
    ensures var s := After(c, Initial(m, t0), steps);
            var r := s.tables.events[i];
            i < |s.hist.log| && s.hist.log[i].batch < |s.hist.batches|
            && var t := s.hist.log[i].ticket;
               var b := s.hist.batches[s.hist.log[i].batch];
               && r.snapshotId == t.p.sid
               && (if r.snapshotId == 0 then r.entityId !in IndexOf(s.snapshots, t.at)
                   else r.snapshotId in s.snapshots && Lists(s.snapshots[r.snapshotId], r.entityId))
               && b.used == IndexOf(s.snapshots, b.usedId) && AttributedBy(r, b.used)
  {
    var s := After(c, Initial(m, t0), steps);
    AlwaysConserved(c, m, t0, steps);
    AlwaysTraced(c, m, t0, steps);
    var t := s.hist.log[i].ticket;
    assert t in s.hist.arrived;
    var j :| 0 <= j < |s.hist.arrived| && s.hist.arrived[j] == t;
    assert TicketTraced(s.snapshots, t);
    SidNamesListing(s.snapshots, t);
  }

  // ---------- no rebuild between submit and commit ----------

  /** While the index stands still, a ticket is only ever committed with that index. */
  ghost predicate CommittedWith(s: State, t: Ticket, idx: Index) {
    && s.index == idx
    && (s.phase.Inserting? && t in s.buffer ==> s.phase.used == idx)
    && (forall i :: 0 <= i < |s.hist.log| && s.hist.log[i].ticket == t ==>
          s.hist.log[i].batch < |s.hist.batches| && s.hist.batches[s.hist.log[i].batch].used == idx)
  }

  predicate IndexFixed(steps: seq<Step>) {
    forall i :: 0 <= i < |steps| ==> !steps[i].Rebuild? && !steps[i].Crash?
  }

  lemma StepCommittedWith(c: Config, s: State, st: Step, t: Ticket, idx: Index)
    requires CommittedWith(s, t, idx) && !st.Rebuild? && !st.Crash?
    ensures CommittedWith(Exec(c, s, st), t, idx)
  {
    if Enabled(c, s, st) && st.InsertOk? {
      var s' := Stored(s);
      forall i | 0 <= i < |s'.hist.log| && s'.hist.log[i].ticket == t
        ensures s'.hist.log[i].batch < |s'.hist.batches| && s'.hist.batches[s'.hist.log[i].batch].used == idx
      {
        if i >= |s.hist.log| {
          assert s.buffer[i - |s.hist.log|] == t;
        } else {
          assert s'.hist.log[i] == s.hist.log[i];
        }
      }
    }
  }

  lemma {:induction false} RunCommittedWith(c: Config, s: State, steps: seq<Step>, t: Ticket, idx: Index)
    requires CommittedWith(s, t, idx) && IndexFixed(steps)
    ensures CommittedWith(After(c, s, steps), t, idx)
  {
    if steps != [] {
      RunCommittedWith(c, s, steps[..|steps| - 1], t, idx);
      StepCommittedWith(c, After(c, s, steps[..|steps| - 1]), steps[|steps| - 1], t, idx);
    }
  }

  /** Nothing ends the insert that a commit is waiting for. */
  predicate Awaited(steps: seq<Step>) {
    forall i :: 0 <= i < |steps| ==> !steps[i].InsertOk? && !steps[i].Fail? && !steps[i].Crash?
  }

  lemma StepAwaited(c: Config, s: State, st: Step)
    requires s.phase.Inserting? && !st.InsertOk? && !st.Fail? && !st.Crash?
    ensures var s' := Exec(c, s, st);
            && s'.phase == s.phase && s'.buffer == s.buffer
            && s'.hist.log == s.hist.log && s'.hist.batches == s.hist.batches
  {
    EventsStand(c, s, st);
  }

  lemma {:induction false} RunAwaited(c: Config, s: State, steps: seq<Step>)
    requires s.phase.Inserting? && Awaited(steps)
    ensures var s' := After(c, s, steps);
            && s'.phase == s.phase && s'.buffer == s.buffer
            && s'.hist.log == s.hist.log && s'.hist.batches == s.hist.batches
  {
    if steps != [] {
      RunAwaited(c, s, steps[..|steps| - 1]);
      StepAwaited(c, After(c, s, steps[..|steps| - 1]), steps[|steps| - 1]);
    }
  }

  /** Rows, once stored, keep their place and their history. */
  lemma {:induction false} RunLog(c: Config, s: State, steps: seq<Step>)
    ensures var s' := After(c, s, steps);
            s.hist.log <= s'.hist.log && s.hist.batches <= s'.hist.batches
  {
    if steps != [] {
      RunLog(c, s, steps[..|steps| - 1]);
      var s1, st := After(c, s, steps[..|steps| - 1]), steps[|steps| - 1];
      if !st.InsertOk? {
        EventsStand(c, s1, st);
      }
    }
  }

  /** Row i was built with this index map. */
  ghost predicate BuiltWith(s: State, i: nat, idx: Index) {
    i < |s.hist.log| && s.hist.log[i].batch < |s.hist.batches| && s.hist.batches[s.hist.log[i].batch].used == idx
  }

  /**
   Row i of the ticket was stored by `s`, or it is part of the batch whose insert is then awaited, which
   step k of `rest` completes.
   */
  ghost predicate RowBuilt(s: State, rest: seq<Step>, k: nat, i: nat) {
    || i < |s.hist.log|
    || (s.phase.Inserting? && i < |s.hist.log| + |s.buffer|
        && k < |rest| && Awaited(rest[..k]) && rest[k].InsertOk?)
  }

  lemma BuiltRowUses(c: Config, s: State, rest: seq<Step>, k: nat, i: nat, t: Ticket, idx: Index)
    requires CommittedWith(s, t, idx) && RowBuilt(s, rest, k, i)
    requires i < |After(c, s, rest).hist.log| && After(c, s, rest).hist.log[i].ticket == t
    ensures BuiltWith(After(c, s, rest), i, idx)
  {
    if i < |s.hist.log| {
      RunLog(c, s, rest);
    } else {
      var s1 := After(c, s, rest[..k]);
      RunAwaited(c, s, rest[..k]);
      RunThroughInsert(c, s, rest, k);
      RunLog(c, Stored(s1), rest[k + 1..]);
      assert Stored(s1).hist.log[i].ticket == t;
      StoredRowUses(s1, t, idx, i);
    }
  }

  lemma RunThroughInsert(c: Config, s: State, rest: seq<Step>, k: nat)
    requires k < |rest| && rest[k].InsertOk? && After(c, s, rest[..k]).phase.Inserting?
    ensures After(c, s, rest) == After(c, Stored(After(c, s, rest[..k])), rest[k + 1..])
  {
    AfterConcat(c, s, rest[..k] + [InsertOk], rest[k + 1..]);
    AfterNext(c, s, rest[..k], InsertOk);
    InsertStores(c, After(c, s, rest[..k]));
    assert rest[..k] + [InsertOk] + rest[k + 1..] == rest;
  }

  lemma InsertStores(c: Config, s: State)
    requires s.phase.Inserting?
    ensures Exec(c, s, InsertOk) == Stored(s)
  {
  }

  lemma StoredRowUses(s: State, t: Ticket, idx: Index, i: nat)
    requires s.phase.Inserting? && (t in s.buffer ==> s.phase.used == idx)
    requires |s.hist.log| <= i < |Stored(s).hist.log| && Stored(s).hist.log[i].ticket == t
    ensures BuiltWith(Stored(s), i, idx)
  {
    var j := i - |s.hist.log|;
    assert Stored(s).hist.log[i] == Entry(s.buffer[j], |s.hist.batches|);
    assert s.buffer[j] in s.buffer;
  }

  /**
   If no rebuild falls between an event's submit and the building of its batch, the stored row carries
   exactly what the index said at submit, whatever happens while the insert is awaited and later; for a
   listed entity that is the build of the payload its snapshot id names.
   */
  lemma {:induction false} UnrebuiltRowsAreExact(
      c: Config, m: Matcher, t0: real, before: seq<Step>, ev: HAEvent, nowMs: int,
      between: seq<Step>, rest: seq<Step>, k: nat, i: nat)
    requires CollisionFree(c.hash) && IndexFixed(between)
    requires !Matches(Current(After(c, Initial(m, t0), before)), ev.entityId)
    requires RowBuilt(After(c, Initial(m, t0), before + [Submit(ev, nowMs)] + between), rest, k, i)
    requires var s := After(c, Initial(m, t0), before + [Submit(ev, nowMs)] + between + rest);
             var n := |After(c, Initial(m, t0), before).hist.arrived|;
             i < |s.tables.events| && i < |s.hist.log| && s.hist.log[i].ticket.n == n
    ensures var s0 := After(c, Initial(m, t0), before);
            var s := After(c, Initial(m, t0), before + [Submit(ev, nowMs)] + between + rest);
            var r := s.tables.events[i];
            && r.entityId == ev.entityId && r.ts == ev.ts && AttributedBy(r, s0.index)
            && r.snapshotId == SidIn(s0.index, ev.entityId)
            && (r.snapshotId != 0 ==>
                  r.snapshotId in s.snapshots && r.entityId in Build(s.snapshots[r.snapshotId], r.snapshotId)
                  && AttributedBy(r, Build(s.snapshots[r.snapshotId], r.snapshotId)))
  {
    var init := Initial(m, t0);
    var s0 := After(c, init, before);
    var upto := before + [Submit(ev, nowMs)] + between;
    var s1 := After(c, init, upto);
    var s := After(c, init, upto + rest);
    var t := Submitted(s0, ev, nowMs).hist.arrived[|s0.hist.arrived|];
    RunAround(c, m, t0, before, ev, nowMs, between);
    AfterConcat(c, init, upto, rest);
    RunArrived(c, s1, rest);
    RunSnapshots(c, s1, rest);
    AlwaysConserved(c, m, t0, upto + rest);
    assert s.hist.arrived[t.n] == t;
    TicketByNumber(s, t, i);
    BuiltRowUses(c, s1, rest, k, i, t, s0.index);
    AlwaysTraced(c, m, t0, before);
    AlwaysTraced(c, m, t0, upto + rest);
    ExactRow(s0, s, t, i);
  }

  lemma ExactRow(s0: State, s: State, t: Ticket, i: nat)
    requires Logged(s) && Traced(s0) && Traced(s) && i < |s.hist.log| && s.hist.log[i].ticket == t
    requires BuiltWith(s, i, s0.index) && TicketTraced(s.snapshots, t) && t.at == s0.indexId
    requires t.p.sid == SidIn(s0.index, t.p.ev.entityId)
    requires forall v :: v in s0.snapshots ==> v in s.snapshots && s.snapshots[v] == s0.snapshots[v]
    ensures var r := s.tables.events[i];
            && r.entityId == t.p.ev.entityId && r.ts == t.p.ev.ts && AttributedBy(r, s0.index)
            && r.snapshotId == t.p.sid
            && (r.snapshotId != 0 ==>
                  r.snapshotId in s.snapshots && r.entityId in Build(s.snapshots[r.snapshotId], r.snapshotId)
                  && AttributedBy(r, Build(s.snapshots[r.snapshotId], r.snapshotId)))
  {
    SidNamesListing(s.snapshots, t);
    assert s0.index == IndexOf(s0.snapshots, s0.indexId) == IndexOf(s.snapshots, t.at);
  }

  // ---------- snapshot id against attribution ----------

  predicate SameAttribution(a: Index, b: Index, id: string) {
    var x, y := RefIn(a, id), RefIn(b, id);
    if x.Some? && y.Some? then
      x.value.deviceId == y.value.deviceId && x.value.areaId == y.value.areaId
      && x.value.deviceClass == y.value.deviceClass
    else
      (x.Some? ==> Blank(x.value)) && (y.Some? ==> Blank(y.value))
  }

  predicate Blank(ref: EntityRef) {
    ref.deviceId.None? && ref.areaId.None? && ref.deviceClass.None?
  }

  /**
   For every row of every run: its attribution is what the version named by its snapshot id says (nothing,
   for id 0) if and only if that version and the one its batch was built with attribute the entity alike.
   */
  lemma {:induction false} IdNamesAttributionExactly(c: Config, m: Matcher, t0: real, steps: seq<Step>, i: nat)
    requires CollisionFree(c.hash) && i < |After(c, Initial(m, t0), steps).tables.events|
    ensures var s := After(c, Initial(m, t0), steps);
            var r := s.tables.events[i];
            i < |s.hist.log| && s.hist.log[i].batch < |s.hist.batches|
            && var built := s.hist.batches[s.hist.log[i].batch].usedId;
               (r.snapshotId == 0 || r.snapshotId in s.snapshots)
               && (AttributedBy(r, IndexOf(s.snapshots, r.snapshotId))
                   <==> SameAttribution(IndexOf(s.snapshots, built), IndexOf(s.snapshots, r.snapshotId), r.entityId))
  {
    RowProvenance(c, m, t0, steps, i);
    AlwaysTraced(c, m, t0, steps);
  }

  // A version, a submit, another version, a flush: the rows' ids and their attribution part ways.

  const FIRST := Pending(LampOn(1), 0)
  const SECOND := Pending(LampOn(2), 1)

  /** One event submitted before the lamp is known, one when it is in the hall. */
  ghost predicate LampSubmitted(s: State) {
    && s.phase.Idle? && s.clock <= 0.0 && |s.buffer| == 1 && |s.waiting| == 1
    && s.buffer[0].p == FIRST && s.waiting[0].p == SECOND
    && s.snapshots == map[1 := LAMP_IN_HALL] && s.tables == EMPTY_TABLES
  }

  function Learn(v: int, p: Payload): seq<Step> {
    [StoreVersion(v, p), Rebuild(v, p)]
  }

  lemma Learned(c: Config, s: State, v: int, p: Payload)
    requires v >= 1 && v !in s.snapshots
    ensures After(c, s, Learn(v, p))
            == s.(snapshots := s.snapshots[v := p], index := Build(p, v), indexId := v)
  {
    var s1 := Exec(c, s, StoreVersion(v, p));
    assert Learn(v, p)[..1][..0] == [] && After(c, s, Learn(v, p)[..1]) == s1;
    assert s1 == s.(snapshots := s.snapshots[v := p]);
  }

  lemma FirstBuffered(c: Config) returns (s: State)
    requires c.batchSize >= 3
    ensures s == After(c, Initial([], 0.0), [Submit(LampOn(1), 0), Append(0.0, 0)])
    ensures s.phase.Idle? && s.clock == 0.0 && |s.buffer| == 1 && s.buffer[0].p == FIRST && s.waiting == []
    ensures s.snapshots == map[] && s.matchers == [[]] && s.tables == EMPTY_TABLES
  {
    var steps := [Submit(LampOn(1), 0), Append(0.0, 0)];
    var init := Initial([], 0.0);
    assert steps[..1][..0] == [];
    var s1 := Exec(c, init, steps[0]);
    assert After(c, init, steps[..1]) == s1;
    assert s1.waiting == [Ticket(FIRST, 0, 0, 0)];
    s := Exec(c, s1, steps[1]);
    assert s == Taken(s1, 0.0);
  }

  lemma SecondSubmitted(c: Config, s: State)
    requires s.phase.Idle? && s.clock <= 0.0 && |s.buffer| == 1 && s.buffer[0].p == FIRST && s.waiting == []
    requires s.index == Build(LAMP_IN_HALL, 1) && s.matchers == [[]]
    requires s.snapshots == map[1 := LAMP_IN_HALL] && s.tables == EMPTY_TABLES
    ensures LampSubmitted(Exec(c, s, Submit(LampOn(2), 0)))
  {
    LampIndexed(LAMP_IN_HALL, 1);
    BuildStamps(LAMP_IN_HALL.entities, DeviceAreas(LAMP_IN_HALL.devices), 1);
    assert Exec(c, s, Submit(LampOn(2), 0)) == Submitted(s, LampOn(2), 0);
  }

  lemma LampSubmits(c: Config) returns (steps: seq<Step>)
    requires c.batchSize >= 3
    ensures LampSubmitted(After(c, Initial([], 0.0), steps))
  {
    var init := Initial([], 0.0);
    var first := [Submit(LampOn(1), 0), Append(0.0, 0)];
    var s := FirstBuffered(c);
    Learned(c, s, 1, LAMP_IN_HALL);
    AfterConcat(c, init, first, Learn(1, LAMP_IN_HALL));
    AfterNext(c, init, first + Learn(1, LAMP_IN_HALL), Submit(LampOn(2), 0));
    steps := first + Learn(1, LAMP_IN_HALL) + [Submit(LampOn(2), 0)];
    SecondSubmitted(c, After(c, s, Learn(1, LAMP_IN_HALL)));
  }

  lemma SecondBuffered(c: Config, s: State)
    requires c.batchSize >= 3 && LampSubmitted(s)
    ensures After(c, s, [Append(0.0, 0)]) == Taken(s, 0.0)
    ensures Pendings(Taken(s, 0.0).buffer) == [FIRST, SECOND]
  {
    assert [Append(0.0, 0)][..0] == [];
    assert Exec(c, s, Append(0.0, 0)) == Taken(s, 0.0);
  }

  lemma Flushed(c: Config, s: State)
    requires s.phase.Idle? && s.buffer != [] && s.tables == EMPTY_TABLES
    ensures var s' := After(c, s, [Flush(0), InsertOk]);
            s'.tables.events == RowsOf(Pendings(s.buffer), s.index, 0) && s'.snapshots == s.snapshots
  {
    var steps := [Flush(0), InsertOk];
    assert steps[..1][..0] == [];
    var s1 := Exec(c, s, Flush(0));
    assert After(c, s, steps[..1]) == s1;
    assert s1 == Begun(s, 0) && s1.phase.Inserting?;
    assert Exec(c, s1, InsertOk) == Stored(s1);
  }

  lemma LampFlushed(c: Config, s: State) returns (steps: seq<Step>)
    requires c.batchSize >= 3 && LampSubmitted(s)
    ensures var s' := After(c, s, steps);
            && s'.tables.events == RowsOf([FIRST, SECOND], Build(LAMP_IN_DEN, 2), 0)
            && s'.snapshots == map[1 := LAMP_IN_HALL, 2 := LAMP_IN_DEN]
  {
    var s1 := Taken(s, 0.0);
    SecondBuffered(c, s);
    Learned(c, s1, 2, LAMP_IN_DEN);
    var s3 := After(c, s1, Learn(2, LAMP_IN_DEN));
    Flushed(c, s3);
    AfterConcat(c, s, [Append(0.0, 0)], Learn(2, LAMP_IN_DEN));
    AfterConcat(c, s, [Append(0.0, 0)] + Learn(2, LAMP_IN_DEN), [Flush(0), InsertOk]);
    steps := [Append(0.0, 0)] + Learn(2, LAMP_IN_DEN) + [Flush(0), InsertOk];
  }

  /**
   The first row has snapshot id 0 but is attributed to the den; the second has the id of the version that
   puts the lamp in the hall, and is attributed to the den.
   */
  lemma IdAndAttributionPart(c: Config) returns (steps: seq<Step>)
    requires c.batchSize >= 3
    ensures var s := After(c, Initial([], 0.0), steps);
            && |s.tables.events| == 2
            && s.tables.events[0].snapshotId == 0 && s.tables.events[0].areaId == Some("den")
            && s.tables.events[1].snapshotId == 1 && s.tables.events[1].areaId == Some("den")
            && 1 in s.snapshots && LAMP in Build(s.snapshots[1], 1)
            && Build(s.snapshots[1], 1)[LAMP].areaId == Some("hall")
  {
    var first := LampSubmits(c);
    var second := LampFlushed(c, After(c, Initial([], 0.0), first));
    steps := first + second;
    AfterConcat(c, Initial([], 0.0), first, second);
    LampIndexed(LAMP_IN_HALL, 1);
    LampIndexed(LAMP_IN_DEN, 2);
  }

  // ---------- runs around one submit ----------

  /** The run from just after the submit on: the ticket stays accepted and is committed with the same index. */
  lemma RunAround(c: Config, m: Matcher, t0: real, before: seq<Step>, ev: HAEvent, nowMs: int, between: seq<Step>)
    requires IndexFixed(between)
    requires !Matches(Current(After(c, Initial(m, t0), before)), ev.entityId)
    ensures var s0 := After(c, Initial(m, t0), before);
            var s := After(c, Initial(m, t0), before + [Submit(ev, nowMs)] + between);
            var n := |s0.hist.arrived|;
            var s1 := Submitted(s0, ev, nowMs);
            && n < |s1.hist.arrived| && s1.hist.arrived[n].n == n && s1.hist.arrived[n].p.ev == ev
            && s1.hist.arrived[n].at == s0.indexId
            && s1.hist.arrived[n].p.sid == SidIn(s0.index, ev.entityId)
            && n < |s.hist.arrived| && s.hist.arrived[n] == s1.hist.arrived[n]
            && CommittedWith(s, s1.hist.arrived[n], s0.index)
            && forall v :: v in s0.snapshots ==> v in s.snapshots && s.snapshots[v] == s0.snapshots[v]
  {
    var init := Initial(m, t0);
    var s0 := After(c, init, before);
    var s1 := Submitted(s0, ev, nowMs);
    var n := |s0.hist.arrived|;
    var t := s1.hist.arrived[n];
    AfterConcat(c, init, before + [Submit(ev, nowMs)], between);
    AfterNext(c, init, before, Submit(ev, nowMs));
    AlwaysConserved(c, m, t0, before);
    FreshTicket(s0, t, n);
    RunCommittedWith(c, s1, between, t, s0.index);
    RunArrived(c, s1, between);
    RunSnapshots(c, s1, between);
  }

  /** Tickets are numbered in order of acceptance, so a number names a ticket. */
  lemma TicketByNumber(s: State, t: Ticket, i: nat)
    requires Genuine(s) && i < |s.hist.log| && t in s.hist.arrived && s.hist.log[i].ticket.n == t.n
    ensures s.hist.log[i].ticket == t
  {
    assert s.hist.log[i].ticket in s.hist.arrived;
  }

  lemma FreshTicket(s: State, t: Ticket, n: nat)
    requires Genuine(s) && n == |s.hist.arrived| && t.n == n
    ensures t !in s.buffer && forall i :: 0 <= i < |s.hist.log| ==> s.hist.log[i].ticket != t
  {
    assert t !in s.hist.arrived;
  }

  lemma {:induction false} RunArrived(c: Config, s: State, steps: seq<Step>)
    ensures s.hist.arrived <= After(c, s, steps).hist.arrived
  {
    if steps != [] {
      RunArrived(c, s, steps[..|steps| - 1]);
      StepArrived(c, After(c, s, steps[..|steps| - 1]), steps[|steps| - 1]);
    }
  }

  lemma StepArrived(c: Config, s: State, st: Step)
    ensures s.hist.arrived <= Exec(c, s, st).hist.arrived
  {
    if !st.Submit? {
      SubmitsStand(c, s, st);
    }
  }

  lemma StepSnapshots(c: Config, s: State, st: Step)
    ensures var s' := Exec(c, s, st);
            forall v :: v in s.snapshots ==> v in s'.snapshots && s'.snapshots[v] == s.snapshots[v]
  {
    if !st.StoreVersion? {
      VersionsStand(c, s, st);
    }
  }

  /** Stored versions stay as they are. */
  lemma {:induction false} RunSnapshots(c: Config, s: State, steps: seq<Step>)
    ensures var s' := After(c, s, steps);
            forall v :: v in s.snapshots ==> v in s'.snapshots && s'.snapshots[v] == s.snapshots[v]
  {
    if steps != [] {
      RunSnapshots(c, s, steps[..|steps| - 1]);
      StepSnapshots(c, After(c, s, steps[..|steps| - 1]), steps[|steps| - 1]);
    }
  }
}
