/**
 Batching is invisible: under a fixed index and matcher and without failures, any batch size and any
 schedule of commits leaves the tables that handling one event at a time would leave.
 */
module Batching {
  import opened Prelude
  import opened Counters
  import opened Store
  import opened Topology
  import opened Privacy
  import opened Batches
  import opened Machine
  import opened CounterIndex
  import opened Conservation
  import opened Provenance

  // ---------- the reference: one event at a time ----------

  /** The tables as a reader sees them, without reception times and drop hours. */
  datatype Simple = Simple(
    rows: seq<EventRow>, counters: map<CounterKey, int>, dropped: int, lastSeen: map<string, int>)

  function OneEvent(idx: Index, m: Matcher, z: Simple, ev: HAEvent): Simple {
    if Matches(m, ev.entityId) then z.(dropped := z.dropped + 1)
    else
      var r := RowOf(Pending(ev, SidIn(idx, ev.entityId)), idx, 0);
      Simple(z.rows + [r],
             if Truthy(r.areaId) then Increment(z.counters, (r.areaId.value, BucketFor(ev.ts)), 1) else z.counters,
             z.dropped,
             if ev.entityId in z.lastSeen then z.lastSeen[ev.entityId := ev.ts] else z.lastSeen)
  }

  function OneAtATime(idx: Index, m: Matcher, z: Simple, evs: seq<HAEvent>): Simple {
    if evs == [] then z
    else OneEvent(idx, m, OneAtATime(idx, m, z, evs[..|evs| - 1]), evs[|evs| - 1])
  }

  /** The submits the matcher lets through, with their snapshot ids. */
  function Admitted(idx: Index, m: Matcher, evs: seq<HAEvent>): seq<Pending> {
    if evs == [] then []
    else
      var ev := evs[|evs| - 1];
      Admitted(idx, m, evs[..|evs| - 1])
      + (if Matches(m, ev.entityId) then [] else [Pending(ev, SidIn(idx, ev.entityId))])
  }

  function AdmittedRows(idx: Index, m: Matcher, evs: seq<HAEvent>): seq<EventRow> {
    RowsOf(Admitted(idx, m, evs), idx, 0)
  }

  /** One more submit adds its row unless it is hidden. */
  lemma AdmittedNext(idx: Index, m: Matcher, evs: seq<HAEvent>)
    requires evs != []
    ensures var n := |evs| - 1;
            var p := Pending(evs[n], SidIn(idx, evs[n].entityId));
            AdmittedRows(idx, m, evs)
            == if Matches(m, evs[n].entityId) then AdmittedRows(idx, m, evs[..n])
               else AdmittedRows(idx, m, evs[..n]) + [RowOf(p, idx, 0)]
  {
  }

  lemma {:induction false} ReferenceRows(idx: Index, m: Matcher, z: Simple, evs: seq<HAEvent>)
    ensures var y := OneAtATime(idx, m, z, evs);
            && y.rows == z.rows + AdmittedRows(idx, m, evs)
            && y.dropped == z.dropped + |evs| - |AdmittedRows(idx, m, evs)|
            && y.lastSeen.Keys == z.lastSeen.Keys
  {
    if evs != [] {
      ReferenceRows(idx, m, z, evs[..|evs| - 1]);
      AdmittedNext(idx, m, evs);
    }
  }

  lemma OneEventCounts(idx: Index, m: Matcher, z: Simple, ev: HAEvent, k: CounterKey)
    requires !Matches(m, ev.entityId)
    ensures Get(OneEvent(idx, m, z, ev).counters, k)
            == Get(z.counters, k)
               + if Hits(RowOf(Pending(ev, SidIn(idx, ev.entityId)), idx, 0), k) then 1 else 0
  {
  }

  lemma {:induction false} ReferenceCounts(idx: Index, m: Matcher, z: Simple, evs: seq<HAEvent>, k: CounterKey)
    ensures Get(OneAtATime(idx, m, z, evs).counters, k) == Get(z.counters, k) + CountKey(AdmittedRows(idx, m, evs), k)
  {
    if evs != [] {
      var n := |evs| - 1;
      ReferenceCounts(idx, m, z, evs[..n], k);
      AdmittedNext(idx, m, evs);
      var rows := AdmittedRows(idx, m, evs);
      if !Matches(m, evs[n].entityId) {
        assert rows[..|rows| - 1] == AdmittedRows(idx, m, evs[..n]);
        OneEventCounts(idx, m, OneAtATime(idx, m, z, evs[..n]), evs[n], k);
      }
    }
  }

  lemma {:induction false} ReferenceSeen(idx: Index, m: Matcher, z: Simple, evs: seq<HAEvent>, id: string)
    requires id in z.lastSeen
    ensures var y := OneAtATime(idx, m, z, evs);
            id in y.lastSeen && y.lastSeen[id] == LastRowTs(AdmittedRows(idx, m, evs), id, z.lastSeen[id])
  {
    if evs != [] {
      var n := |evs| - 1;
      ReferenceSeen(idx, m, z, evs[..n], id);
      AdmittedNext(idx, m, evs);
      var rows := AdmittedRows(idx, m, evs);
      if !Matches(m, evs[n].entityId) {
        assert rows[..|rows| - 1] == AdmittedRows(idx, m, evs[..n]);
      }
    }
  }

  // ---------- rows alike up to reception time ----------

  ghost predicate Alike(a: seq<EventRow>, b: seq<EventRow>) {
    |a| == |b| && forall i :: 0 <= i < |a| ==> a[i].(receivedAt := 0) == b[i].(receivedAt := 0)
  }

  lemma {:induction false} AlikeCounts(a: seq<EventRow>, b: seq<EventRow>)
    requires Alike(a, b)
    ensures forall k :: CountKey(a, k) == CountKey(b, k)
    ensures forall id, d :: LastRowTs(a, id, d) == LastRowTs(b, id, d)
  {
    if a != [] {
      var n := |a| - 1;
      AlikeCounts(a[..n], b[..n]);
      assert a[n].(receivedAt := 0) == b[n].(receivedAt := 0);
    }
  }

  // ---------- quiet runs ----------

  predicate QuietStep(st: Step) {
    st.Submit? || st.DropOk? || st.Append? || st.Flush? || st.Tick?
    || st.InsertOk? || st.CountOk? || st.BumpOk? || st.Finish?
  }

  predicate Quiet(steps: seq<Step>) {
    forall i :: 0 <= i < |steps| ==> QuietStep(steps[i])
  }

  /** Nothing in flight: a final flush has been done and every call has returned. */
  predicate Settled(s: State) {
    s.phase.Idle? && s.buffer == [] && s.waiting == [] && s.dropping == []
  }

  ghost predicate Good(s: State) {
    Conserved(s) && Tallied(s) && !s.hist.faulted
  }

  /** Every failure-free reachable state qualifies as a start. */
  lemma {:induction false} ReachableGood(c: Config, m: Matcher, t0: real, steps: seq<Step>)
    requires !After(c, Initial(m, t0), steps).hist.faulted
    ensures Good(After(c, Initial(m, t0), steps))
  {
    AlwaysConserved(c, m, t0, steps);
    AlwaysTallied(c, m, t0, steps);
  }

  lemma QuietGood(c: Config, s: State, st: Step)
    requires Good(s) && QuietStep(st)
    ensures Good(Exec(c, s, st))
  {
    StepConserved(c, s, st);
    var s' := Exec(c, s, st);
    forall k ensures KeyTallied(s', k) {
      StepTallied(c, s, st, k);
    }
    QuietFrame(c, s, st);
  }

  /** What quiet steps leave alone. */
  lemma QuietFrame(c: Config, s: State, st: Step)
    requires QuietStep(st)
    ensures var s' := Exec(c, s, st);
            && s'.index == s.index && s'.matchers == s.matchers && s'.hist.faulted == s.hist.faulted
            && s.hist.submits <= s'.hist.submits
            && s.tables.events <= s'.tables.events
            && s'.tables.entities.Keys == s.tables.entities.Keys
  {
    TopologyStands(c, s, st);
    MatchersStand(c, s, st);
    if !st.Submit? { SubmitsStand(c, s, st); }
    if !st.InsertOk? { EventsStand(c, s, st); }
    if !st.BumpOk? { EntitiesStand(c, s, st); }
  }

  lemma MatchersStand(c: Config, s: State, st: Step)
    requires QuietStep(st)
    ensures Exec(c, s, st).matchers == s.matchers && Exec(c, s, st).hist.faulted == s.hist.faulted
  {
    if IsCommitStart(st) {
      StartFrame(c, s, st);
    }
  }

  // Accepted events so far, in terms of the submits since the start of the quiet run.

  ghost predicate Admits(s0: State, s: State) {
    && s0.hist.submits <= s.hist.submits
    && s.index == s0.index && s.matchers == s0.matchers
    && Pendings(s.hist.arrived)
       == Pendings(s0.hist.arrived) + Admitted(s0.index, Current(s0), s.hist.submits[|s0.hist.submits|..])
  }

  lemma AdmittedAppend(idx: Index, m: Matcher, evs: seq<HAEvent>, ev: HAEvent)
    ensures Admitted(idx, m, evs + [ev])
            == if Matches(m, ev.entityId) then Admitted(idx, m, evs)
               else Admitted(idx, m, evs) + [Pending(ev, SidIn(idx, ev.entityId))]
  {
    assert (evs + [ev])[..|evs + [ev]| - 1] == evs;
  }

  lemma AdmittedExtend(
      before: seq<Pending>, arrived: seq<Pending>, idx: Index, m: Matcher, evs: seq<HAEvent>, ev: HAEvent)
    requires arrived == before + Admitted(idx, m, evs)
    ensures (if Matches(m, ev.entityId) then arrived else arrived + [Pending(ev, SidIn(idx, ev.entityId))])
            == before + Admitted(idx, m, evs + [ev])
  {
    AdmittedAppend(idx, m, evs, ev);
  }

  lemma SliceNext<T>(a: seq<T>, n: nat, x: T)
    requires n <= |a|
    ensures (a + [x])[n..] == a[n..] + [x]
  {
  }

  lemma SubmittedAdmits(s0: State, s: State, ev: HAEvent, nowMs: int)
    requires Admits(s0, s)
    ensures Admits(s0, Submitted(s, ev, nowMs))
  {
    var n0 := |s0.hist.submits|;
    SubmittedPendings(s, ev, nowMs);
    SliceNext(s.hist.submits, n0, ev);
    AdmittedExtend(Pendings(s0.hist.arrived), Pendings(s.hist.arrived), s0.index, Current(s0),
                   s.hist.submits[n0..], ev);
    AdmitsFrom(s0, s, Submitted(s, ev, nowMs), ev);
  }

  lemma AdmitsFrom(s0: State, s: State, s': State, ev: HAEvent)
    requires Admits(s0, s) && s'.index == s.index && s'.matchers == s.matchers
    requires s'.hist.submits == s.hist.submits + [ev]
    requires Pendings(s'.hist.arrived)
             == Pendings(s0.hist.arrived) + Admitted(s0.index, Current(s0), (s.hist.submits + [ev])[|s0.hist.submits|..])
    ensures Admits(s0, s')
  {
  }

  lemma SubmittedPendings(s: State, ev: HAEvent, nowMs: int)
    ensures Pendings(Submitted(s, ev, nowMs).hist.arrived)
            == if Matches(Current(s), ev.entityId) then Pendings(s.hist.arrived)
               else Pendings(s.hist.arrived) + [Pending(ev, SidIn(s.index, ev.entityId))]
  {
  }

  lemma StepAdmits(c: Config, s0: State, s: State, st: Step)
    requires Admits(s0, s) && QuietStep(st)
    ensures Admits(s0, Exec(c, s, st))
  {
    if st.Submit? {
      SubmittedAdmits(s0, s, st.ev, st.nowMs);
    } else {
      QuietFrame(c, s, st);
      SubmitsStand(c, s, st);
    }
  }

  // Rows stored since then are enriched from the fixed index.

  ghost predicate Enriched(rows: seq<EventRow>, from: nat, idx: Index) {
    forall i :: from <= i < |rows| ==> rows[i] == RowOf(PendingOf(rows[i]), idx, rows[i].receivedAt)
  }

  ghost predicate Enriches(s0: State, s: State) {
    && s0.tables.events <= s.tables.events
    && s.index == s0.index
    && Enriched(s.tables.events, |s0.tables.events|, s0.index)
    && (s.phase.Inserting? ==> Enriched(s.phase.rows, 0, s0.index))
  }

  lemma StoredEnriches(s0: State, s: State)
    requires s.phase.Inserting? && Enriches(s0, s)
    ensures Enriches(s0, Stored(s))
  {
    var s' := Stored(s);
    forall i | |s0.tables.events| <= i < |s'.tables.events|
      ensures s'.tables.events[i] == RowOf(PendingOf(s'.tables.events[i]), s0.index, s'.tables.events[i].receivedAt)
    {
      if i >= |s.tables.events| {
        assert s'.tables.events[i] == s.phase.rows[i - |s.tables.events|];
      } else {
        assert s'.tables.events[i] == s.tables.events[i];
      }
    }
  }

  lemma StepEnriches(c: Config, s0: State, s: State, st: Step)
    requires Enriches(s0, s) && QuietStep(st)
    ensures Enriches(s0, Exec(c, s, st))
  {
    if st.InsertOk? {
      if s.phase.Inserting? {
        StoredEnriches(s0, s);
      }
    } else {
      TopologyStands(c, s, st);
      EventsStand(c, s, st);
      if IsCommitStart(st) {
        StartRows(c, s, st);
      } else {
        InsertingStands(c, s, st);
      }
    }
  }

  /** A starting commit builds its rows from the current index. */
  lemma StartRows(c: Config, s: State, st: Step)
    requires IsCommitStart(st)
    ensures var ph := Exec(c, s, st).phase;
            ph.Inserting? && ph != s.phase ==> Enriched(ph.rows, 0, s.index)
  {
  }

  // Each entity's last-seen time, counting the bumps still due.

  function SeenSoon(s: State, id: string): int
    requires id in s.tables.entities
  {
    if BumpDue(s.phase, id) then s.phase.last[id] else s.tables.entities[id].lastSeenAt
  }

  ghost predicate Seen(s0: State, s: State, id: string) {
    && s0.tables.events <= s.tables.events
    && (id in s0.tables.entities ==>
          && id in s.tables.entities
          && SeenSoon(s, id) == LastRowTs(s.tables.events[|s0.tables.events|..], id, s0.tables.entities[id].lastSeenAt))
    && (s.phase.Inserting? ==>
          forall d :: LastRowTs(s.phase.rows, id, d) == if id in s.phase.last then s.phase.last[id] else d)
  }

  lemma BegunSeen(s0: State, s: State, rcv: int, id: string)
    requires s.phase.Idle? && Seen(s0, s, id)
    ensures Seen(s0, Begun(s, rcv), id)
  {
    forall d {
      LastTsIs(Pendings(s.buffer), s.index, rcv, id, d);
    }
  }

  lemma StoredSeen(s0: State, s: State, id: string)
    requires s.phase.Inserting? && Seen(s0, s, id)
    ensures Seen(s0, Stored(s), id)
  {
    var s' := Stored(s);
    var n0 := |s0.tables.events|;
    assert s'.tables.events[n0..] == s.tables.events[n0..] + s.phase.rows;
    if id in s0.tables.entities {
      LastRowTsConcat(s.tables.events[n0..], s.phase.rows, id, s0.tables.entities[id].lastSeenAt);
    }
    assert s'.phase.last == s.phase.last;
  }

  lemma StepSeen(c: Config, s0: State, s: State, st: Step, id: string)
    requires Seen(s0, s, id) && QuietStep(st)
    ensures Seen(s0, Exec(c, s, st), id)
  {
    if Enabled(c, s, st) {
      match st
      case Append(now, rcv) =>
        BegunSeen(s0, Taken(s, now), rcv, id);
      case Flush(rcv) => BegunSeen(s0, s, rcv, id);
      case Tick(now, rcv) => BegunSeen(s0, s.(clock := now), rcv, id);
      case InsertOk => StoredSeen(s0, s, id);
      case _ => SeenStands(c, s, st, id);
    }
  }

  lemma SeenStands(c: Config, s: State, st: Step, id: string)
    requires st.Submit? || st.DropOk? || st.CountOk? || st.BumpOk? || st.Finish?
    ensures var s' := Exec(c, s, st);
            && s'.tables.events == s.tables.events
            && (id in s.tables.entities ==> id in s'.tables.entities && SeenSoon(s', id) == SeenSoon(s, id))
            && (s'.phase.Inserting? ==> s'.phase == s.phase)
  {
  }

  // ---------- the refinement ----------

  ghost predicate QuietFrom(s0: State, s: State) {
    Good(s) && Admits(s0, s) && Enriches(s0, s) && (forall id :: Seen(s0, s, id))
    && s.tables.entities.Keys == s0.tables.entities.Keys
  }

  lemma QuietStart(s0: State)
    requires Good(s0) && Settled(s0)
    ensures QuietFrom(s0, s0)
  {
    assert s0.hist.submits[|s0.hist.submits|..] == [];
    assert s0.tables.events[|s0.tables.events|..] == [];
  }

  lemma {:induction false} QuietRun(c: Config, s0: State, steps: seq<Step>)
    requires Good(s0) && Settled(s0) && Quiet(steps)
    ensures QuietFrom(s0, After(c, s0, steps))
  {
    QuietStart(s0);
    if steps != [] {
      var n := |steps| - 1;
      QuietRun(c, s0, steps[..n]);
      var s := After(c, s0, steps[..n]);
      var s' := Exec(c, s, steps[n]);
      QuietGood(c, s, steps[n]);
      QuietFrame(c, s, steps[n]);
      StepAdmits(c, s0, s, steps[n]);
      StepEnriches(c, s0, s, steps[n]);
      forall id ensures Seen(s0, s', id) {
        StepSeen(c, s0, s, steps[n], id);
      }
    }
  }

  ghost function SimpleOf(s: State): Simple {
    Simple(s.tables.events, s.tables.counters, Sum(s.tables.drops),
           map id | id in s.tables.entities :: s.tables.entities[id].lastSeenAt)
  }

  /** In a settled state the accepted events are the stored ones. */
  lemma SettledStored(s: State)
    requires Good(s) && Settled(s)
    ensures s.hist.arrived == Tickets(s.hist.log) && |s.hist.arrived| == |s.tables.events|
    ensures Sum(s.tables.drops) == s.hist.hidden
  {
    assert Tickets(s.hist.log) + [] + [] == Tickets(s.hist.log);
  }

  function SubmitsSince(s0: State, s: State): seq<HAEvent>
    requires |s0.hist.submits| <= |s.hist.submits|
  {
    s.hist.submits[|s0.hist.submits|..]
  }

  /** In a settled state the new rows are the admitted events, each enriched from the fixed index. */
  lemma SettledRows(s0: State, s: State)
    requires Good(s0) && Settled(s0) && QuietFrom(s0, s) && Settled(s)
    ensures Alike(s.tables.events[|s0.tables.events|..], AdmittedRows(s0.index, Current(s0), SubmitsSince(s0, s)))
  {
    var n0 := |s0.tables.events|;
    SettledSizes(s0, s);
    forall i | n0 <= i < |s.tables.events|
      ensures s.tables.events[i].(receivedAt := 0) == RowOf(Pendings(s.hist.arrived)[i], s0.index, 0)
    {
      SettledRow(s0, s, i);
    }
    AlikeFrom(s.tables.events, Pendings(s0.hist.arrived), Pendings(s.hist.arrived),
              Admitted(s0.index, Current(s0), SubmitsSince(s0, s)), s0.index);
  }

  lemma AlikeFrom(rows: seq<EventRow>, before: seq<Pending>, ps: seq<Pending>, adm: seq<Pending>, idx: Index)
    requires ps == before + adm && |rows| == |ps|
    requires forall i :: |before| <= i < |rows| ==> rows[i].(receivedAt := 0) == RowOf(ps[i], idx, 0)
    ensures Alike(rows[|before|..], RowsOf(adm, idx, 0))
  {
    forall j | 0 <= j < |adm|
      ensures rows[|before|..][j].(receivedAt := 0) == RowsOf(adm, idx, 0)[j].(receivedAt := 0)
    {
      assert rows[|before|..][j] == rows[|before| + j] && ps[|before| + j] == adm[j];
    }
  }

  lemma SettledSizes(s0: State, s: State)
    requires Good(s0) && Settled(s0) && QuietFrom(s0, s) && Settled(s)
    ensures var adm := Admitted(s0.index, Current(s0), SubmitsSince(s0, s));
            && s.hist.arrived == Tickets(s.hist.log) && |s.hist.log| == |s.tables.events|
            && |Pendings(s0.hist.arrived)| == |s0.tables.events|
            && |s.tables.events| == |s0.tables.events| + |adm|
            && Sum(s.tables.drops) == Sum(s0.tables.drops) + |SubmitsSince(s0, s)| - |adm|
  {
    SettledStored(s0);
    SettledStored(s);
    assert |Pendings(s.hist.arrived)| == |s.hist.arrived|;
  }

  lemma SettledRow(s0: State, s: State, i: nat)
    requires Logged(s) && Enriches(s0, s) && s.hist.arrived == Tickets(s.hist.log)
    requires |s0.tables.events| <= i < |s.hist.log|
    ensures s.tables.events[i].(receivedAt := 0) == RowOf(Pendings(s.hist.arrived)[i], s0.index, 0)
  {
    var p := s.hist.log[i].ticket.p;
    assert Pendings(s.hist.arrived)[i] == p;
    RowRemembersPending(p, s.hist.batches[s.hist.log[i].batch].used, s.hist.batches[s.hist.log[i].batch].rcv);
    assert s.tables.events[i] == RowOf(p, s0.index, s.tables.events[i].receivedAt);
  }

  /** A reader cannot tell the tables from the reference. */
  ghost predicate Reads(t: Tables, y: Simple) {
    && Alike(t.events, y.rows)
    && (forall k :: Get(t.counters, k) == Get(y.counters, k))
    && Sum(t.drops) == y.dropped
    && t.entities.Keys == y.lastSeen.Keys
    && forall id :: id in y.lastSeen ==> t.entities[id].lastSeenAt == y.lastSeen[id]
  }

  lemma SettledCount(s0: State, s: State, k: CounterKey)
    requires Good(s0) && Settled(s0) && QuietFrom(s0, s) && Settled(s)
    ensures Get(s.tables.counters, k)
            == Get(s0.tables.counters, k) + CountKey(AdmittedRows(s0.index, Current(s0), SubmitsSince(s0, s)), k)
  {
    SettledRows(s0, s);
    assert KeyTallied(s, k) && KeyTallied(s0, k);
    CountAdded(s0.tables.events, s.tables.events, AdmittedRows(s0.index, Current(s0), SubmitsSince(s0, s)), k);
  }

  lemma CountAdded(stored: seq<EventRow>, rows: seq<EventRow>, added: seq<EventRow>, k: CounterKey)
    requires stored <= rows && Alike(rows[|stored|..], added)
    ensures CountKey(rows, k) == CountKey(stored, k) + CountKey(added, k)
  {
    AlikeCounts(rows[|stored|..], added);
    assert rows == stored + rows[|stored|..];
    CountKeyConcat(stored, rows[|stored|..], k);
  }

  lemma SettledSeen(s0: State, s: State, id: string)
    requires Good(s0) && Settled(s0) && QuietFrom(s0, s) && Settled(s) && id in s0.tables.entities
    ensures id in s.tables.entities
    ensures s.tables.entities[id].lastSeenAt
            == LastRowTs(AdmittedRows(s0.index, Current(s0), SubmitsSince(s0, s)), id, s0.tables.entities[id].lastSeenAt)
  {
    SettledRows(s0, s);
    AlikeCounts(s.tables.events[|s0.tables.events|..], AdmittedRows(s0.index, Current(s0), SubmitsSince(s0, s)));
    assert Seen(s0, s, id);
  }

  /** The reference for everything submitted since `s0`. */
  ghost function Reference(s0: State, s: State): Simple
    requires |s0.hist.submits| <= |s.hist.submits|
  {
    OneAtATime(s0.index, Current(s0), SimpleOf(s0), SubmitsSince(s0, s))
  }

  lemma RefinesRows(s0: State, s: State)
    requires Good(s0) && Settled(s0) && QuietFrom(s0, s) && Settled(s)
    ensures Alike(s.tables.events, Reference(s0, s).rows)
    ensures Sum(s.tables.drops) == Reference(s0, s).dropped
    ensures s.tables.entities.Keys == Reference(s0, s).lastSeen.Keys
  {
    var evs := SubmitsSince(s0, s);
    ReferenceRows(s0.index, Current(s0), SimpleOf(s0), evs);
    SettledRows(s0, s);
    SettledSizes(s0, s);
    AlikeExtends(s0.tables.events, s.tables.events, AdmittedRows(s0.index, Current(s0), evs));
  }

  lemma RefinesCount(s0: State, s: State, k: CounterKey)
    requires Good(s0) && Settled(s0) && QuietFrom(s0, s) && Settled(s)
    ensures Get(s.tables.counters, k) == Get(Reference(s0, s).counters, k)
  {
    SettledCount(s0, s, k);
    ReferenceCounts(s0.index, Current(s0), SimpleOf(s0), SubmitsSince(s0, s), k);
  }

  lemma RefinesSeen(s0: State, s: State, id: string)
    requires Good(s0) && Settled(s0) && QuietFrom(s0, s) && Settled(s)
    ensures var y := Reference(s0, s);
            id in y.lastSeen ==> id in s.tables.entities && s.tables.entities[id].lastSeenAt == y.lastSeen[id]
  {
    ReferenceRows(s0.index, Current(s0), SimpleOf(s0), SubmitsSince(s0, s));
    if id in s0.tables.entities {
      SettledSeen(s0, s, id);
      ReferenceSeen(s0.index, Current(s0), SimpleOf(s0), SubmitsSince(s0, s), id);
    }
  }

  /**
   Refinement: after any quiet run that ends settled, rows (up to reception time), area counters, the
   drop total and every entity's last-seen time are those of one-at-a-time handling of the same submits.
   */
  lemma {:induction false} BatchingRefinesOneAtATime(c: Config, s0: State, steps: seq<Step>)
    requires Good(s0) && Settled(s0) && Quiet(steps) && Settled(After(c, s0, steps))
    ensures var s := After(c, s0, steps);
            |s0.hist.submits| <= |s.hist.submits|
            && Reads(s.tables, Reference(s0, s))
  {
    QuietRun(c, s0, steps);
    var s := After(c, s0, steps);
    RefinesRows(s0, s);
    forall k {
      RefinesCount(s0, s, k);
    }
    forall id {
      RefinesSeen(s0, s, id);
    }
  }

  lemma AlikeExtends(stored: seq<EventRow>, rows: seq<EventRow>, added: seq<EventRow>)
    requires stored <= rows && Alike(rows[|stored|..], added)
    ensures Alike(rows, stored + added)
  {
    forall i | 0 <= i < |rows| ensures rows[i].(receivedAt := 0) == (stored + added)[i].(receivedAt := 0) {
      if i >= |stored| {
        assert rows[|stored|..][i - |stored|] == rows[i];
      }
    }
  }

  /** Hence neither the batch size nor the schedule can be told from the tables. */
  lemma {:induction false} ScheduleInvisible(c: Config, c': Config, s0: State, steps: seq<Step>, steps': seq<Step>)
    requires Good(s0) && Settled(s0) && Quiet(steps) && Quiet(steps')
    requires Settled(After(c, s0, steps)) && Settled(After(c', s0, steps'))
    requires After(c, s0, steps).hist.submits == After(c', s0, steps').hist.submits
    ensures var t, t' := After(c, s0, steps).tables, After(c', s0, steps').tables;
            && Alike(t.events, t'.events)
            && (forall k :: Get(t.counters, k) == Get(t'.counters, k))
            && Sum(t.drops) == Sum(t'.drops)
            && t.entities.Keys == t'.entities.Keys
            && forall id :: id in t.entities ==> t.entities[id].lastSeenAt == t'.entities[id].lastSeenAt
  {
    BatchingRefinesOneAtATime(c, s0, steps);
    BatchingRefinesOneAtATime(c', s0, steps');
  }

  // ---------- settling is always possible ----------

  ghost function Remaining(s: State): nat {
    match s.phase
    case Counting(pa, _) => |pa|
    case Bumping(last) => |last|
    case _ => 0
  }

  function Rank(s: State): nat {
    match s.phase
    case Idle => if s.buffer == [] then 0 else 4
    case Inserting(_, _, _, _, _, _) => 3
    case Counting(_, _) => 2
    case Bumping(_) => 1
  }

  /** The next quiet step of a state with something in flight. */
  ghost function NextQuiet(s: State): Step {
    if s.dropping != [] then DropOk(0)
    else
      match s.phase
      case Idle => if s.buffer != [] then Flush(0) else Append(s.clock, 0)
      case Inserting(_, _, _, _, _, _) => InsertOk
      case Counting(pa, _) => if k :| k in pa then CountOk(k) else Fail
      case Bumping(last) => if id :| id in last then BumpOk(id) else Finish
  }

  /** Nearer to settled: fewer drop updates, fewer waiting submits, a later phase, or less left of the phase. */
  ghost predicate Nearer(s': State, s: State) {
    || |s'.dropping| < |s.dropping|
    || (|s'.dropping| == |s.dropping|
        && (|s'.waiting| < |s.waiting|
            || (|s'.waiting| == |s.waiting|
                && (Rank(s') < Rank(s) || (Rank(s') == Rank(s) && Remaining(s') < Remaining(s))))))
  }

  /** A counting phase always has a counter left to write. */
  predicate CountsLeft(ph: Phase) {
    ph.Counting? ==> ph.perArea != map[]
  }

  lemma CountAdvances(c: Config, s: State, k: CounterKey)
    requires s.phase.Counting? && k in s.phase.perArea
    ensures var s' := Exec(c, s, CountOk(k));
            Nearer(s', s) && CountsLeft(s'.phase) && s'.hist == s.hist
  {
    var rest := s.phase.perArea - {k};
    assert s.phase.perArea.Keys == rest.Keys + {k};
    assert Exec(c, s, CountOk(k)).phase == NextCount(rest, s.phase.last);
  }

  lemma BumpAdvances(c: Config, s: State, id: string)
    requires s.phase.Bumping? && id in s.phase.last
    ensures var s' := Exec(c, s, BumpOk(id));
            Nearer(s', s) && CountsLeft(s'.phase) && s'.hist == s.hist
  {
    var rest := s.phase.last - {id};
    assert s.phase.last.Keys == rest.Keys + {id};
    assert Exec(c, s, BumpOk(id)).phase == Bumping(rest);
  }

  lemma IdleAdvances(c: Config, s: State)
    requires s.phase.Idle? && (s.buffer != [] || s.waiting != [])
    ensures var s' := Exec(c, s, if s.buffer != [] then Flush(0) else Append(s.clock, 0));
            Nearer(s', s) && CountsLeft(s'.phase) && s'.hist == s.hist
  {
  }

  lemma DropAdvances(c: Config, s: State)
    requires s.dropping != []
    ensures var s' := Exec(c, s, DropOk(0));
            Nearer(s', s) && s'.phase == s.phase && s'.hist == s.hist
  {
  }

  lemma InsertAdvances(c: Config, s: State)
    requires s.phase.Inserting?
    ensures var s' := Exec(c, s, InsertOk);
            Nearer(s', s) && CountsLeft(s'.phase) && s'.hist.submits == s.hist.submits
  {
    assert Exec(c, s, InsertOk) == Stored(s);
  }

  lemma FinishAdvances(c: Config, s: State)
    requires s.phase == Bumping(map[])
    ensures var s' := Exec(c, s, Finish);
            Nearer(s', s) && CountsLeft(s'.phase) && s'.hist == s.hist
  {
  }

  lemma NextQuietAdvances(c: Config, s: State)
    requires !Settled(s) && CountsLeft(s.phase)
    ensures var st := NextQuiet(s);
            var s' := Exec(c, s, st);
            QuietStep(st) && Nearer(s', s) && CountsLeft(s'.phase) && s'.hist.submits == s.hist.submits
  {
    if s.dropping != [] {
      DropAdvances(c, s);
    } else {
      match s.phase
      case Idle => IdleAdvances(c, s);
      case Inserting(_, _, _, _, _, _) => InsertAdvances(c, s);
      case Counting(pa, _) =>
        assert pa.Keys != {};
        CountAdvances(c, s, NextQuiet(s).k);
      case Bumping(last) =>
        if last == map[] {
          FinishAdvances(c, s);
        } else {
          assert last.Keys != {};
          BumpAdvances(c, s, NextQuiet(s).id);
        }
    }
  }

  /** From any state without a further failure the pipeline can run to a settled one. */
  lemma {:induction false} CanSettle(c: Config, s: State) returns (steps: seq<Step>)
    requires CountsLeft(s.phase)
    ensures Quiet(steps) && Settled(After(c, s, steps)) && After(c, s, steps).hist.submits == s.hist.submits
    decreases |s.dropping|, |s.waiting|, Rank(s), Remaining(s)
  {
    if Settled(s) {
      return [];
    }
    NextQuietAdvances(c, s);
    var st := NextQuiet(s);
    var rest := CanSettle(c, Exec(c, s, st));
    steps := [st] + rest;
    assert After(c, s, [st]) == Exec(c, s, st) by { assert [st][..0] == []; }
    AfterConcat(c, s, [st], rest);
  }

  lemma StepCountsLeft(c: Config, s: State, st: Step)
    requires CountsLeft(s.phase)
    ensures CountsLeft(Exec(c, s, st).phase)
  {
  }

  lemma {:induction false} AlwaysCountsLeft(c: Config, m: Matcher, t0: real, steps: seq<Step>)
    ensures CountsLeft(After(c, Initial(m, t0), steps).phase)
  {
    if steps != [] {
      AlwaysCountsLeft(c, m, t0, steps[..|steps| - 1]);
      StepCountsLeft(c, After(c, Initial(m, t0), steps[..|steps| - 1]), steps[|steps| - 1]);
    }
  }

  /** Never stuck: every reachable state, whatever failed before, can still be brought to rest by quiet steps. */
  lemma ReachableCanSettle(c: Config, m: Matcher, t0: real, steps: seq<Step>) returns (more: seq<Step>)
    ensures var s := After(c, Initial(m, t0), steps);
            var s' := After(c, Initial(m, t0), steps + more);
            Quiet(more) && Settled(s') && s'.hist.submits == s.hist.submits
  {
    AlwaysCountsLeft(c, m, t0, steps);
    more := CanSettle(c, After(c, Initial(m, t0), steps));
    AfterConcat(c, Initial(m, t0), steps, more);
  }

  // ---------- hiding more ----------

  /** The rows whose entity the matcher does not hide. */
  function Revealed(m: Matcher, rows: seq<EventRow>): seq<EventRow> {
    if rows == [] then []
    else
      var r := rows[|rows| - 1];
      Revealed(m, rows[..|rows| - 1]) + if Matches(m, r.entityId) then [] else [r]
  }

  lemma {:induction false} StricterReference(idx: Index, m: Matcher, m': Matcher, evs: seq<HAEvent>)
    requires HidesAtLeast(m', m)
    ensures AdmittedRows(idx, m', evs) == Revealed(m', AdmittedRows(idx, m, evs))
  {
    if evs != [] {
      var n := |evs| - 1;
      StricterReference(idx, m, m', evs[..n]);
      AdmittedNext(idx, m, evs);
      AdmittedNext(idx, m', evs);
      var rows := AdmittedRows(idx, m, evs);
      if !Matches(m, evs[n].entityId) {
        assert rows[..|rows| - 1] == AdmittedRows(idx, m, evs[..n]);
      }
    }
  }

  lemma {:induction false} AlikeRevealed(m: Matcher, a: seq<EventRow>, b: seq<EventRow>)
    requires Alike(a, b)
    ensures Alike(Revealed(m, a), Revealed(m, b))
  {
    if a != [] {
      var n := |a| - 1;
      AlikeRevealed(m, a[..n], b[..n]);
      assert a[n].(receivedAt := 0) == b[n].(receivedAt := 0);
    }
  }

  /**
   Two settled runs over the same submits from the same store, the second with a matcher that hides at
   least as much: the rows it adds are exactly the first run's added rows filtered by its matcher, and
   what it does not store it counts as dropped.
   */
  lemma {:induction false} HidingMoreFilters(
      c: Config, s0: State, m: Matcher, m': Matcher, steps: seq<Step>, steps': seq<Step>)
    requires Good(s0) && Settled(s0) && HidesAtLeast(m', m)
    requires var a0, b0 := Exec(c, s0, SwapMatcher(m)), Exec(c, s0, SwapMatcher(m'));
             && Quiet(steps) && Quiet(steps')
             && Settled(After(c, a0, steps)) && Settled(After(c, b0, steps'))
             && After(c, a0, steps).hist.submits == After(c, b0, steps').hist.submits
    ensures var s := After(c, Exec(c, s0, SwapMatcher(m)), steps);
            var s' := After(c, Exec(c, s0, SwapMatcher(m')), steps');
            var n0 := |s0.tables.events|;
            && s0.tables.events <= s.tables.events && s0.tables.events <= s'.tables.events
            && Alike(s'.tables.events[n0..], Revealed(m', s.tables.events[n0..]))
            && |s'.tables.events| + Sum(s'.tables.drops) == |s.tables.events| + Sum(s.tables.drops)
  {
    var a0, b0 := Exec(c, s0, SwapMatcher(m)), Exec(c, s0, SwapMatcher(m'));
    SwapGood(c, s0, m);
    SwapGood(c, s0, m');
    var s, s' := After(c, a0, steps), After(c, b0, steps');
    AddedRows(c, a0, steps);
    AddedRows(c, b0, steps');
    var evs := SubmitsSince(s0, s);
    StricterReference(s0.index, m, m', evs);
    AlikeRevealed(m', s.tables.events[|s0.tables.events|..], AdmittedRows(s0.index, m, evs));
  }

  /** A settled quiet run adds exactly the admitted rows and counts the rest as dropped. */
  lemma AddedRows(c: Config, s0: State, steps: seq<Step>)
    requires Good(s0) && Settled(s0) && Quiet(steps) && Settled(After(c, s0, steps))
    ensures var s := After(c, s0, steps);
            && |s0.hist.submits| <= |s.hist.submits| && s0.tables.events <= s.tables.events
            && Alike(s.tables.events[|s0.tables.events|..], AdmittedRows(s0.index, Current(s0), SubmitsSince(s0, s)))
            && |s.tables.events| + Sum(s.tables.drops)
               == |s0.tables.events| + Sum(s0.tables.drops) + |SubmitsSince(s0, s)|
  {
    QuietRun(c, s0, steps);
    SettledRows(s0, After(c, s0, steps));
    SettledSizes(s0, After(c, s0, steps));
  }

  lemma SwapIs(c: Config, s: State, m: Matcher)
    ensures Exec(c, s, SwapMatcher(m)) == s.(matchers := s.matchers + [m])
  {
  }

  lemma SwapTallied(s: State, m: Matcher)
    requires Tallied(s)
    ensures Tallied(s.(matchers := s.matchers + [m]))
  {
    forall k ensures KeyTallied(s.(matchers := s.matchers + [m]), k) {
      assert KeyTallied(s, k);
    }
  }

  lemma SwapGood(c: Config, s: State, m: Matcher)
    requires Good(s) && Settled(s)
    ensures var s' := Exec(c, s, SwapMatcher(m));
            Good(s') && Settled(s') && Current(s') == m && s'.index == s.index && s'.tables == s.tables
            && s'.hist.submits == s.hist.submits
  {
    StepConserved(c, s, SwapMatcher(m));
    SwapTallied(s, m);
    SwapIs(c, s, m);
  }
}
