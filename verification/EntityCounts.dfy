/** What `total_event_count` counts: committed batches that mention the entity, not events. */
module EntityCounts {
  import opened Prelude
  import opened Store
  import opened Privacy
  import opened Batches
  import opened Machine
  import opened Conservation
  import opened Lamp

  /** How many batches numbered `from` or later mention the entity. */
  function CountBatches(bs: seq<Batch>, from: nat, id: string): nat {
    if |bs| <= from then 0
    else CountBatches(bs[..|bs| - 1], from, id) + if id in bs[|bs| - 1].ids then 1 else 0
  }

  function CountEntity(rows: seq<EventRow>, id: string): nat {
    if rows == [] then 0
    else CountEntity(rows[..|rows| - 1], id) + if rows[|rows| - 1].entityId == id then 1 else 0
  }

  lemma {:induction false} CountEntityIs(rows: seq<EventRow>, id: string, n: nat)
    requires n <= |rows|
    ensures CountEntity(rows[..n], id)
            == Tally(n, i => 0 <= i < |rows| && rows[i].entityId == id)
  {
    if n > 0 {
      CountEntityIs(rows, id, n - 1);
      TallyNext(n - 1, i => 0 <= i < |rows| && rows[i].entityId == id);
      assert rows[..n][..n - 1] == rows[..n - 1];
    }
  }

  // ---------- the credit invariant ----------

  ghost predicate DueIsRecent(s: State) {
    s.phase.Counting? || s.phase.Bumping? ==>
      s.hist.batches != [] && s.phase.last.Keys <= s.hist.batches[|s.hist.batches| - 1].ids
  }

  ghost predicate Credited(s: State, id: string) {
    !s.hist.faulted && id in s.tables.entities ==>
      && id in s.hist.born && s.hist.born[id] <= |s.hist.batches|
      && (BumpDue(s.phase, id) ==> s.hist.born[id] < |s.hist.batches|)
      && s.tables.entities[id].totalEventCount + (if BumpDue(s.phase, id) then 1 else 0)
         == CountBatches(s.hist.batches, s.hist.born[id], id)
  }

  lemma StepDueIsRecent(c: Config, s: State, st: Step)
    requires DueIsRecent(s)
    ensures DueIsRecent(Exec(c, s, st))
  {
  }

  lemma StoredCredited(s: State, id: string)
    requires s.phase.Inserting? && Credited(s, id)
    ensures Credited(Stored(s), id)
  {
    var s' := Stored(s);
    assert s'.hist.batches[..|s.hist.batches|] == s.hist.batches;
    assert s'.phase.last == s.phase.last && !BumpDue(s.phase, id);
    assert BumpDue(s'.phase, id) <==> id in s'.hist.batches[|s.hist.batches|].ids;
  }

  lemma UpsertedCredited(c: Config, s: State, rows: seq<EntityRow>, id: string)
    requires Credited(s, id) && DueIsRecent(s)
    requires forall i :: 0 <= i < |rows| ==> rows[i].totalEventCount == 0
    ensures Credited(Exec(c, s, UpsertRows(rows)), id)
  {
    var s' := Exec(c, s, UpsertRows(rows));
    if id in s.tables.entities {
      UpsertEntitiesKeep(s.tables.entities, rows, id);
    } else if id in s'.tables.entities {
      UpsertEntitiesFresh(s.tables.entities, rows, id);
      assert s'.tables.entities[id].totalEventCount == 0;
    }
  }

  /** The remaining steps leave the bumps still due alone, or are failures. */
  lemma DueStands(c: Config, s: State, st: Step, id: string)
    requires !st.InsertOk? && !st.BumpOk?
    ensures var s' := Exec(c, s, st);
            !s'.hist.faulted ==> !s.hist.faulted && BumpDue(s'.phase, id) == BumpDue(s.phase, id)
  {
  }

  lemma StepCredited(c: Config, s: State, st: Step, id: string)
    requires Credited(s, id) && DueIsRecent(s)
    ensures Credited(Exec(c, s, st), id)
  {
    if Enabled(c, s, st) {
      match st
      case InsertOk => StoredCredited(s, id);
      case UpsertRows(rows) => UpsertedCredited(c, s, rows, id);
      case BumpOk(j) =>
        assert Exec(c, s, st).hist == s.hist;
      case _ =>
        EventsStand(c, s, st);
        EntitiesStand(c, s, st);
        BirthsStand(c, s, st);
        DueStands(c, s, st, id);
    }
  }

  lemma {:induction false} AlwaysCredited(c: Config, m: Matcher, t0: real, steps: seq<Step>)
    ensures var s := After(c, Initial(m, t0), steps);
            DueIsRecent(s) && forall id :: Credited(s, id)
  {
    if steps != [] {
      AlwaysCredited(c, m, t0, steps[..|steps| - 1]);
      var s := After(c, Initial(m, t0), steps[..|steps| - 1]);
      StepDueIsRecent(c, s, steps[|steps| - 1]);
      var s' := Exec(c, s, steps[|steps| - 1]);
      forall id ensures Credited(s', id) {
        StepCredited(c, s, steps[|steps| - 1], id);
      }
    }
  }

  // ---------- batches against rows ----------

  lemma {:induction false} CountEntityConcat(a: seq<EventRow>, b: seq<EventRow>, id: string)
    ensures CountEntity(a + b, id) == CountEntity(a, id) + CountEntity(b, id)
  {
    if b == [] {
      assert a + b == a;
    } else {
      assert (a + b)[..|a + b| - 1] == a + b[..|b| - 1];
      CountEntityConcat(a, b[..|b| - 1], id);
    }
  }

  lemma {:induction false} MentionCounts(rows: seq<EventRow>, id: string)
    ensures CountEntity(rows, id) > 0 <==> Mentions(rows, id)
  {
    if rows != [] {
      var n := |rows| - 1;
      MentionCounts(rows[..n], id);
      if Mentions(rows[..n], id) {
        var i :| 0 <= i < n && rows[..n][i].entityId == id;
        assert rows[i].entityId == id;
      }
      if i :| 0 <= i < |rows| && rows[i].entityId == id {
        assert i < n ==> rows[..n][i].entityId == id;
      }
    }
  }

  lemma {:induction false} CountBatchesFrom(bs: seq<Batch>, from: nat, id: string)
    ensures CountBatches(bs, from, id) <= CountBatches(bs, 0, id)
  {
    if bs != [] {
      CountBatchesFrom(bs[..|bs| - 1], from, id);
    }
  }

  ghost predicate Covered(s: State, id: string) {
    && CountBatches(s.hist.batches, 0, id) <= CountEntity(s.tables.events, id)
    && (s.phase.Inserting? ==> (id in s.phase.last <==> Mentions(s.phase.rows, id)))
  }

  lemma BegunCovered(s: State, rcv: int, id: string)
    requires s.phase.Idle? && Covered(s, id)
    ensures Covered(Begun(s, rcv), id)
  {
    LastTsIs(Pendings(s.buffer), s.index, rcv, id, 0);
  }

  lemma StoredCovered(s: State, id: string)
    requires s.phase.Inserting? && Covered(s, id)
    ensures Covered(Stored(s), id)
  {
    var s' := Stored(s);
    CountEntityConcat(s.tables.events, s.phase.rows, id);
    MentionCounts(s.phase.rows, id);
    assert s'.hist.batches[..|s.hist.batches|] == s.hist.batches;
    assert !s'.phase.Inserting?;
  }

  lemma AppendedCovered(c: Config, s: State, now: real, rcv: int, id: string)
    requires s.phase.Idle? && s.waiting != [] && Covered(s, id)
    ensures Covered(Appended(c, s, now, rcv), id)
  {
    BegunCovered(Taken(s, now), rcv, id);
  }

  lemma StepCovered(c: Config, s: State, st: Step, id: string)
    requires Covered(s, id)
    ensures Covered(Exec(c, s, st), id)
  {
    if !IsCommitStart(st) && !st.InsertOk? {
      EventsStand(c, s, st);
      InsertingStands(c, s, st);
    } else if Enabled(c, s, st) {
      match st
      case Append(now, rcv) => AppendedCovered(c, s, now, rcv, id);
      case Flush(rcv) => BegunCovered(s, rcv, id);
      case Tick(now, rcv) => BegunCovered(s.(clock := now), rcv, id);
      case InsertOk => StoredCovered(s, id);
    }
  }

  lemma {:induction false} AlwaysCovered(c: Config, m: Matcher, t0: real, steps: seq<Step>, id: string)
    ensures Covered(After(c, Initial(m, t0), steps), id)
  {
    if steps != [] {
      AlwaysCovered(c, m, t0, steps[..|steps| - 1], id);
      StepCovered(c, After(c, Initial(m, t0), steps[..|steps| - 1]), steps[|steps| - 1], id);
    }
  }

  /**
   Without failures, whenever the lock is free, an entity's total is the number of committed batches
   mentioning it whose bump came after its row existed; so it is at most its number of events rows.
   */
  lemma {:induction false} TotalCountsBatches(c: Config, m: Matcher, t0: real, steps: seq<Step>, id: string)
    requires var s := After(c, Initial(m, t0), steps);
             !s.hist.faulted && s.phase.Idle? && id in s.tables.entities
    ensures var s := After(c, Initial(m, t0), steps);
            && id in s.hist.born
            && s.tables.entities[id].totalEventCount == CountBatches(s.hist.batches, s.hist.born[id], id)
            && s.tables.entities[id].totalEventCount <= CountEntity(s.tables.events, id)
  {
    var s := After(c, Initial(m, t0), steps);
    AlwaysCredited(c, m, t0, steps);
    assert Credited(s, id);
    AlwaysCovered(c, m, t0, steps, id);
    CountBatchesFrom(s.hist.batches, s.hist.born[id], id);
  }

  // ---------- batches against rows, exactly ----------

  /** Rows of the entity stored by the batches numbered from `lo` up to but not including `hi`. */
  function RowsBetween(log: seq<Entry>, rows: seq<EventRow>, lo: nat, hi: nat, id: string): nat
    requires |log| == |rows|
  {
    if log == [] then 0
    else
      var n := |log| - 1;
      RowsBetween(log[..n], rows[..n], lo, hi, id)
      + if lo <= log[n].batch < hi && rows[n].entityId == id then 1 else 0
  }

  lemma {:induction false} RowsBetweenIs(log: seq<Entry>, rows: seq<EventRow>, lo: nat, hi: nat, id: string, n: nat)
    requires |log| == |rows| && n <= |log|
    ensures RowsBetween(log[..n], rows[..n], lo, hi, id)
            == Tally(n, i => 0 <= i < |log| && i < |rows| && lo <= log[i].batch < hi && rows[i].entityId == id)
  {
    if n > 0 {
      RowsBetweenIs(log, rows, lo, hi, id, n - 1);
      TallyNext(n - 1, i => 0 <= i < |log| && i < |rows| && lo <= log[i].batch < hi && rows[i].entityId == id);
      assert log[..n][..n - 1] == log[..n - 1] && rows[..n][..n - 1] == rows[..n - 1];
    }
  }

  predicate IsRowOf(log: seq<Entry>, rows: seq<EventRow>, i: int, b: nat, id: string)
    requires |log| == |rows|
  {
    0 <= i < |log| && log[i].batch == b && rows[i].entityId == id
  }

  ghost predicate InBatch(log: seq<Entry>, rows: seq<EventRow>, b: nat, id: string)
    requires |log| == |rows|
  {
    exists i :: IsRowOf(log, rows, i, b, id)
  }

  /** The batch holds two rows of the entity. */
  ghost predicate TwiceIn(log: seq<Entry>, rows: seq<EventRow>, b: nat, id: string)
    requires |log| == |rows|
  {
    exists i, j :: i < j && IsRowOf(log, rows, i, b, id) && IsRowOf(log, rows, j, b, id)
  }

  lemma {:induction false} RowsSplit(log: seq<Entry>, rows: seq<EventRow>, lo: nat, mid: nat, id: string)
    requires |log| == |rows| && lo <= mid
    ensures RowsBetween(log, rows, lo, mid + 1, id)
            == RowsBetween(log, rows, lo, mid, id) + RowsBetween(log, rows, mid, mid + 1, id)
  {
    if log != [] {
      RowsSplit(log[..|log| - 1], rows[..|log| - 1], lo, mid, id);
    }
  }

  lemma {:induction false} NoRowsBetween(log: seq<Entry>, rows: seq<EventRow>, lo: nat, id: string)
    requires |log| == |rows|
    ensures RowsBetween(log, rows, lo, lo, id) == 0
  {
    if log != [] {
      NoRowsBetween(log[..|log| - 1], rows[..|log| - 1], lo, id);
    }
  }

  /** One batch's count tells whether it holds the entity, and whether twice. */
  lemma {:induction false} RowsOfBatch(log: seq<Entry>, rows: seq<EventRow>, b: nat, id: string)
    requires |log| == |rows|
    ensures RowsBetween(log, rows, b, b + 1, id) >= 1 <==> InBatch(log, rows, b, id)
    ensures RowsBetween(log, rows, b, b + 1, id) >= 2 <==> TwiceIn(log, rows, b, id)
  {
    if log != [] {
      var n := |log| - 1;
      RowsOfBatch(log[..n], rows[..n], b, id);
      RowsOfBatchNext(log, rows, b, id);
    }
  }

  lemma RowsOfBatchNext(log: seq<Entry>, rows: seq<EventRow>, b: nat, id: string)
    requires |log| == |rows| && log != []
    ensures var n := |log| - 1;
            && (InBatch(log, rows, b, id) <==> InBatch(log[..n], rows[..n], b, id) || IsRowOf(log, rows, n, b, id))
            && (TwiceIn(log, rows, b, id)
                <==> TwiceIn(log[..n], rows[..n], b, id)
                     || (InBatch(log[..n], rows[..n], b, id) && IsRowOf(log, rows, n, b, id)))
  {
    var n := |log| - 1;
    assert forall i :: 0 <= i < n ==> (IsRowOf(log[..n], rows[..n], i, b, id) <==> IsRowOf(log, rows, i, b, id));
    if InBatch(log[..n], rows[..n], b, id) {
      var i :| IsRowOf(log[..n], rows[..n], i, b, id);
      assert IsRowOf(log, rows, i, b, id);
    }
    if TwiceIn(log[..n], rows[..n], b, id) {
      var i, j :| i < j && IsRowOf(log[..n], rows[..n], i, b, id) && IsRowOf(log[..n], rows[..n], j, b, id);
      assert IsRowOf(log, rows, i, b, id) && IsRowOf(log, rows, j, b, id);
    }
    if InBatch(log, rows, b, id) {
      var i :| IsRowOf(log, rows, i, b, id);
      assert i < n ==> IsRowOf(log[..n], rows[..n], i, b, id);
    }
    if TwiceIn(log, rows, b, id) {
      var i, j :| i < j && IsRowOf(log, rows, i, b, id) && IsRowOf(log, rows, j, b, id);
      assert IsRowOf(log[..n], rows[..n], i, b, id);
      assert j < n ==> IsRowOf(log[..n], rows[..n], j, b, id);
    }
  }

  /** Batches mentioning the entity are as many as its rows exactly when none holds it twice. */
  lemma {:induction false} BatchesAgainstRows(
      bs: seq<Batch>, log: seq<Entry>, rows: seq<EventRow>, from: nat, id: string)
    requires |log| == |rows|
    requires forall b :: 0 <= b < |bs| ==> (id in bs[b].ids <==> InBatch(log, rows, b, id))
    ensures from <= |bs| ==>
              && CountBatches(bs, from, id) <= RowsBetween(log, rows, from, |bs|, id)
              && (CountBatches(bs, from, id) == RowsBetween(log, rows, from, |bs|, id)
                  <==> forall b :: from <= b < |bs| ==> !TwiceIn(log, rows, b, id))
  {
    if |bs| == from {
      NoRowsBetween(log, rows, from, id);
    } else if from < |bs| {
      var n := |bs| - 1;
      BatchesAgainstRows(bs[..n], log, rows, from, id);
      RowsSplit(log, rows, from, n, id);
      RowsOfBatch(log, rows, n, id);
    }
  }

  /** Each batch's entities are those of the rows it stored. */
  ghost predicate Recorded(s: State, id: string) {
    && |s.hist.log| == |s.tables.events|
    && (forall i :: 0 <= i < |s.hist.log| ==> s.hist.log[i].batch < |s.hist.batches|)
    && (forall b :: 0 <= b < |s.hist.batches| ==>
          (id in s.hist.batches[b].ids <==> InBatch(s.hist.log, s.tables.events, b, id)))
  }

  lemma StoredRecorded(s: State, id: string)
    requires s.phase.Inserting? && Logged(s) && Covered(s, id) && Recorded(s, id)
    ensures Recorded(Stored(s), id)
  {
    var s', m := Stored(s), |s.hist.batches|;
    forall b | 0 <= b < m
      ensures id in s'.hist.batches[b].ids <==> InBatch(s'.hist.log, s'.tables.events, b, id)
    {
      OldBatchStands(s, b, id);
      assert s'.hist.batches[b] == s.hist.batches[b];
    }
    NewBatchHolds(s, id);
    assert s'.hist.batches[m].ids == s.phase.last.Keys;
  }

  lemma OldBatchStands(s: State, b: nat, id: string)
    requires s.phase.Inserting? && |s.phase.rows| == |s.buffer| && Recorded(s, id) && b < |s.hist.batches|
    ensures InBatch(Stored(s).hist.log, Stored(s).tables.events, b, id)
            <==> InBatch(s.hist.log, s.tables.events, b, id)
  {
    var s' := Stored(s);
    var n := |s.hist.log|;
    if i :| IsRowOf(s.hist.log, s.tables.events, i, b, id) {
      assert IsRowOf(s'.hist.log, s'.tables.events, i, b, id);
    }
    if i :| IsRowOf(s'.hist.log, s'.tables.events, i, b, id) {
      assert i < n;
      assert IsRowOf(s.hist.log, s.tables.events, i, b, id);
    }
  }

  lemma NewBatchHolds(s: State, id: string)
    requires s.phase.Inserting? && |s.phase.rows| == |s.buffer| && Recorded(s, id)
    ensures InBatch(Stored(s).hist.log, Stored(s).tables.events, |s.hist.batches|, id) <==> Mentions(s.phase.rows, id)
  {
    var s', n, m := Stored(s), |s.hist.log|, |s.hist.batches|;
    if i :| 0 <= i < |s.phase.rows| && s.phase.rows[i].entityId == id {
      assert IsRowOf(s'.hist.log, s'.tables.events, n + i, m, id);
    }
    if i :| IsRowOf(s'.hist.log, s'.tables.events, i, m, id) {
      assert i >= n && s.phase.rows[i - n].entityId == id;
    }
  }

  lemma {:induction false} AlwaysRecorded(c: Config, m: Matcher, t0: real, steps: seq<Step>, id: string)
    ensures Recorded(After(c, Initial(m, t0), steps), id)
  {
    if steps != [] {
      var front, st := steps[..|steps| - 1], steps[|steps| - 1];
      var s := After(c, Initial(m, t0), front);
      AlwaysRecorded(c, m, t0, front, id);
      if !st.InsertOk? {
        EventsStand(c, s, st);
      } else if s.phase.Inserting? {
        AlwaysConserved(c, m, t0, front);
        AlwaysCovered(c, m, t0, front, id);
        StoredRecorded(s, id);
        assert Exec(c, s, st) == Stored(s);
      }
    }
  }

  /**
   Without failures, whenever the lock is free, an entity's total is the number of its events rows stored
   since its own row existed if and only if no batch from then on holds two of them; else it is below.
   */
  lemma TotalCountsRowsExactly(c: Config, m: Matcher, t0: real, steps: seq<Step>, id: string)
    requires var s := After(c, Initial(m, t0), steps);
             !s.hist.faulted && s.phase.Idle? && id in s.tables.entities
    ensures var s := After(c, Initial(m, t0), steps);
            && id in s.hist.born && |s.hist.log| == |s.tables.events|
            && var from, to := s.hist.born[id], |s.hist.batches|;
               var total := s.tables.entities[id].totalEventCount;
               var rows := RowsBetween(s.hist.log, s.tables.events, from, to, id);
               && total <= rows
               && (total == rows <==> forall b :: from <= b < to ==> !TwiceIn(s.hist.log, s.tables.events, b, id))
  {
    var s := After(c, Initial(m, t0), steps);
    TotalCountsBatches(c, m, t0, steps, id);
    AlwaysCredited(c, m, t0, steps);
    assert Credited(s, id);
    AlwaysRecorded(c, m, t0, steps, id);
    BatchesAgainstRows(s.hist.batches, s.hist.log, s.tables.events, s.hist.born[id], id);
  }

  // A batch of two events of one entity: the total says one, the table has two rows.

  const LAMP_ROW := EntityRow(LAMP, None, "light", None, None, None, false, 1, 0, 0, 0, 0)
  const TWO_PENDING := [Pending(LampOn(1), 0), Pending(LampOn(2), 0)]

  lemma LampRowStored(c: Config)
    ensures var s := Exec(c, Initial([], 0.0), UpsertRows([LAMP_ROW]));
            && s.tables == EMPTY_TABLES.(entities := map[LAMP := LAMP_ROW])
            && s == Initial([], 0.0).(tables := s.tables, hist := s.hist)
            && s.hist == Initial([], 0.0).hist.(born := map[LAMP := 0])
  {
    assert UpsertEntities(map[], [LAMP_ROW]) == UpsertEntity(map[], LAMP_ROW) by {
      assert [LAMP_ROW][..0] == [];
    }
    assert [LAMP_ROW][0].totalEventCount == 0 && Enabled(c, Initial([], 0.0), UpsertRows([LAMP_ROW]));
  }

  lemma TwoSubmitted(c: Config, s: State)
    requires s.index == map[] && s.indexId == 0 && s.matchers == [[]] && s.waiting == [] && s.hist.arrived == []
    ensures var s' := Exec(c, Exec(c, s, Submit(LampOn(1), 0)), Submit(LampOn(2), 0));
            && s' == s.(waiting := s'.waiting, hist := s'.hist)
            && s'.hist == s.hist.(submits := s'.hist.submits, arrived := s'.hist.arrived)
            && s'.waiting == [Ticket(Pending(LampOn(1), 0), 0, 0, 0), Ticket(Pending(LampOn(2), 0), 1, 0, 0)]
  {
  }

  lemma TwoAppended(c: Config, s: State)
    requires c.batchSize == 2 && s.phase.Idle? && s.buffer == [] && |s.waiting| == 2 && s.clock <= 0.0
    ensures var s' := Exec(c, Exec(c, s, Append(0.0, 0)), Append(0.0, 0));
            && s'.buffer == s.waiting && s'.tables == s.tables && s'.hist == s.hist && s'.index == s.index
            && s'.phase == Inserting(RowsOf(Pendings(s.waiting), s.index, 0), PerArea(Pendings(s.waiting), s.index),
                                     LastTs(Pendings(s.waiting)), s.index, s.indexId, 0)
  {
    var s1 := Exec(c, s, Append(0.0, 0));
    assert s1 == Taken(s, 0.0);
    assert Taken(s1, 0.0).buffer == s.waiting;
  }

  lemma TwoBuffered(c: Config) returns (steps: seq<Step>)
    requires c.batchSize == 2
    ensures var s := After(c, Initial([], 0.0), steps);
            && !s.hist.faulted && Pendings(s.buffer) == TWO_PENDING && s.index == map[]
            && s.phase == Inserting(RowsOf(TWO_PENDING, map[], 0), map[], map[LAMP := 2], map[], 0, 0)
            && s.tables == EMPTY_TABLES.(entities := map[LAMP := LAMP_ROW])
            && s.hist.batches == [] && s.hist.born == map[LAMP := 0]
  {
    var init := Initial([], 0.0);
    steps := [UpsertRows([LAMP_ROW]), Submit(LampOn(1), 0), Submit(LampOn(2), 0), Append(0.0, 0), Append(0.0, 0)];
    AfterFive(c, init, steps);
    LampRowStored(c);
    var s1 := Exec(c, init, steps[0]);
    TwoSubmitted(c, s1);
    var s3 := Exec(c, Exec(c, s1, steps[1]), steps[2]);
    TwoAppended(c, s3);
    assert Pendings(s3.waiting) == TWO_PENDING;
    TwoBuilt();
  }

  lemma TwoBuilt()
    ensures PerArea(TWO_PENDING, map[]) == map[] && LastTs(TWO_PENDING) == map[LAMP := 2]
  {
    assert TWO_PENDING[..1][..0] == [];
    assert PerArea(TWO_PENDING[..1], map[]) == map[];
    assert LastTs(TWO_PENDING[..1]) == map[LAMP := 1];
  }

  /** The batch is committed: one on the total, two rows in the table, both in the same batch. */
  lemma TwoEventsCountOnce(c: Config) returns (steps: seq<Step>)
    requires c.batchSize == 2
    ensures var s := After(c, Initial([], 0.0), steps);
            && !s.hist.faulted && s.phase.Idle? && s.buffer == [] && LAMP in s.tables.entities
            && s.tables.events == RowsOf(TWO_PENDING, map[], 0)
            && LAMP in s.hist.born && s.hist.born[LAMP] == 0 && |s.hist.batches| == 1
            && s.tables.entities[LAMP].totalEventCount == 1 && CountEntity(s.tables.events, LAMP) == 2
  {
    var init := Initial([], 0.0);
    var before := TwoBuffered(c);
    var s := After(c, init, before);
    TwoCommitted(c, s);
    TwoRows();
    steps := before + [InsertOk] + [BumpOk(LAMP)] + [Finish];
    AfterNext(c, init, before, InsertOk);
    AfterNext(c, init, before + [InsertOk], BumpOk(LAMP));
    AfterNext(c, init, before + [InsertOk] + [BumpOk(LAMP)], Finish);
  }

  lemma TwoRows()
    ensures CountEntity(RowsOf(TWO_PENDING, map[], 0), LAMP) == 2
  {
    var rows := RowsOf(TWO_PENDING, map[], 0);
    assert rows[..1][..0] == [] && CountEntity(rows[..1], LAMP) == 1;
  }

  lemma TwoCommitted(c: Config, s: State)
    requires s.phase == Inserting(RowsOf(TWO_PENDING, map[], 0), map[], map[LAMP := 2], map[], 0, 0)
    requires s.tables == EMPTY_TABLES.(entities := map[LAMP := LAMP_ROW]) && s.hist.batches == []
    ensures var s' := Exec(c, Exec(c, Exec(c, s, InsertOk), BumpOk(LAMP)), Finish);
            && s'.phase.Idle? && s'.buffer == [] && s'.hist.faulted == s.hist.faulted && s'.hist.born == s.hist.born
            && |s'.hist.batches| == 1 && s'.tables.events == RowsOf(TWO_PENDING, map[], 0)
            && LAMP in s'.tables.entities && s'.tables.entities[LAMP].totalEventCount == 1
  {
    var s1 := Exec(c, s, InsertOk);
    assert s1 == Stored(s) && s1.phase == Bumping(map[LAMP := 2]);
    assert Exec(c, s1, BumpOk(LAMP)).phase == Bumping(map[]);
  }

  // ---------- one event per batch ----------

  ghost predicate Single(c: Config, s: State) {
    c.batchSize <= 1 && !s.hist.faulted ==>
      && |s.hist.batches| == |s.tables.events|
      && (forall b :: 0 <= b < |s.hist.batches| ==> s.hist.batches[b].ids == {s.tables.events[b].entityId})
      && (s.phase.Idle? ==> s.buffer == [])
      && (s.phase.Inserting? ==> |s.phase.rows| == 1 && s.phase.last.Keys == {s.phase.rows[0].entityId})
  }

  lemma BegunSingle(c: Config, s: State, t: Ticket, rcv: int)
    requires s.buffer == [t]
    ensures Begun(s, rcv).phase.Inserting? && |Begun(s, rcv).phase.rows| == 1
    ensures Begun(s, rcv).phase.last.Keys == {Begun(s, rcv).phase.rows[0].entityId}
  {
    var buf := Pendings(s.buffer);
    assert buf == [t.p] && buf[..0] == [];
    assert LastTs(buf) == map[][t.p.ev.entityId := t.p.ev.ts];
  }

  lemma AppendedSingle(c: Config, s: State, now: real, rcv: int)
    requires Single(c, s) && s.phase.Idle? && s.waiting != []
    ensures Single(c, Appended(c, s, now, rcv))
  {
    if c.batchSize <= 1 && !s.hist.faulted {
      var t := s.waiting[0];
      var s1 := Taken(s, now);
      assert s1.buffer == [t];
      BegunSingle(c, s1, t, rcv);
    }
  }

  lemma BuffersStand(c: Config, s: State, st: Step)
    requires !st.InsertOk? && !st.Append?
    ensures var s' := Exec(c, s, st);
            && (!s'.hist.faulted ==> !s.hist.faulted)
            && (!s'.hist.faulted && s'.phase.Idle? ==> (s.phase.Idle? && s'.buffer == s.buffer) || s'.buffer == [])
            && (s'.phase.Inserting? ==> s'.phase == s.phase || (s.buffer != [] && s.phase.Idle?))
  {
  }

  lemma StepSingle(c: Config, s: State, st: Step)
    requires Single(c, s)
    ensures Single(c, Exec(c, s, st))
  {
    if Enabled(c, s, st) {
      match st
      case Append(now, rcv) => AppendedSingle(c, s, now, rcv);
      case InsertOk =>
        assert Stored(s).hist.batches
               == s.hist.batches + [Batch(s.phase.used, s.phase.usedId, s.phase.last.Keys, s.phase.rcv)];
      case _ =>
        EventsStand(c, s, st);
        BuffersStand(c, s, st);
    }
  }

  lemma {:induction false} AlwaysSingle(c: Config, m: Matcher, t0: real, steps: seq<Step>)
    ensures Single(c, After(c, Initial(m, t0), steps))
  {
    if steps != [] {
      AlwaysSingle(c, m, t0, steps[..|steps| - 1]);
      StepSingle(c, After(c, Initial(m, t0), steps[..|steps| - 1]), steps[|steps| - 1]);
    }
  }

  lemma {:induction false} SingleBatchesCountRows(bs: seq<Batch>, rows: seq<EventRow>, from: nat, id: string)
    requires |bs| == |rows| && from <= |rows|
    requires forall b :: 0 <= b < |bs| ==> bs[b].ids == {rows[b].entityId}
    ensures CountBatches(bs, from, id) == CountEntity(rows[from..], id)
  {
    if from < |bs| {
      var n := |bs| - 1;
      SingleBatchesCountRows(bs[..n], rows[..n], from, id);
      assert rows[from..][..|rows[from..]| - 1] == rows[..n][from..];
    }
  }

  /** With batches of one, the total is exactly the entity's events rows stored since its own row existed. */
  lemma {:induction false} TotalCountsRowsWhenUnbatched(c: Config, m: Matcher, t0: real, steps: seq<Step>, id: string)
    requires c.batchSize <= 1
    requires var s := After(c, Initial(m, t0), steps);
             !s.hist.faulted && s.phase.Idle? && id in s.tables.entities
    ensures var s := After(c, Initial(m, t0), steps);
            && id in s.hist.born && s.hist.born[id] <= |s.tables.events|
            && s.tables.entities[id].totalEventCount == CountEntity(s.tables.events[s.hist.born[id]..], id)
  {
    var s := After(c, Initial(m, t0), steps);
    TotalCountsBatches(c, m, t0, steps, id);
    AlwaysSingle(c, m, t0, steps);
    AlwaysCredited(c, m, t0, steps);
    assert Credited(s, id);
    SingleBatchesCountRows(s.hist.batches, s.tables.events, s.hist.born[id], id);
  }
}
