/** The hourly counters as an index over the events table, through every interleaving and failure. */
module CounterIndex {
  import opened Prelude
  import opened Store
  import opened Batches
  import opened Machine
  import opened Privacy

  /** Counted in the batch in flight, inserted, but not yet added to the counters. */
  function Due(ph: Phase, k: CounterKey): int {
    if ph.Counting? then Get(ph.perArea, k) else 0
  }

  ghost predicate KeyTallied(s: State, k: CounterKey) {
    var n := CountKey(s.tables.events, k);
    && Get(s.tables.counters, k) + Due(s.phase, k) <= n
    && (!s.hist.faulted ==> Get(s.tables.counters, k) + Due(s.phase, k) == n)
    && Due(s.phase, k) >= 0
    && (s.phase.Inserting? ==> Get(s.phase.perArea, k) == CountKey(s.phase.rows, k))
  }

  ghost predicate Tallied(s: State) {
    forall k :: KeyTallied(s, k)
  }

  lemma BegunTallied(s: State, rcv: int, k: CounterKey)
    requires s.phase.Idle? && KeyTallied(s, k)
    ensures KeyTallied(Begun(s, rcv), k)
  {
    PerAreaCounts(Pendings(s.buffer), s.index, rcv, k);
  }

  lemma StoredTallied(s: State, k: CounterKey)
    requires s.phase.Inserting? && KeyTallied(s, k)
    ensures KeyTallied(Stored(s), k)
  {
    CountKeyConcat(s.tables.events, s.phase.rows, k);
    assert Due(NextCount(s.phase.perArea, s.phase.last), k) == Get(s.phase.perArea, k);
  }

  lemma CountedTallied(s: State, j: CounterKey, k: CounterKey)
    requires s.phase.Counting? && j in s.phase.perArea && KeyTallied(s, k)
    ensures KeyTallied(s.(tables := s.tables.(counters := Increment(s.tables.counters, j, s.phase.perArea[j])),
                          phase := NextCount(s.phase.perArea - {j}, s.phase.last)), k)
  {
    var rem := s.phase.perArea - {j};
    assert Get(rem, k) == if k == j then 0 else Get(s.phase.perArea, k);
    assert Due(NextCount(rem, s.phase.last), k) == Get(rem, k);
  }

  /** Every other step leaves events and counters alone; if it ends a count half way, it is a failure. */
  lemma OthersTallied(c: Config, s: State, st: Step, k: CounterKey)
    requires !IsCommitStart(st) && !st.InsertOk? && !st.CountOk? && KeyTallied(s, k)
    ensures KeyTallied(Exec(c, s, st), k)
  {
    EventsStand(c, s, st);
    CountersStand(c, s, st);
    PhaseStands(c, s, st);
  }

  lemma StepTallied(c: Config, s: State, st: Step, k: CounterKey)
    requires KeyTallied(s, k)
    ensures KeyTallied(Exec(c, s, st), k)
  {
    if !IsCommitStart(st) && !st.InsertOk? && !st.CountOk? {
      OthersTallied(c, s, st, k);
    } else if Enabled(c, s, st) {
      match st
      case Append(now, rcv) => AppendedTallied(c, s, now, rcv, k);
      case Flush(rcv) => BegunTallied(s, rcv, k);
      case Tick(now, rcv) => BegunTallied(s.(clock := now), rcv, k);
      case InsertOk => StoredTallied(s, k);
      case CountOk(j) => CountedTallied(s, j, k);
    }
  }

  lemma AppendedTallied(c: Config, s: State, now: real, rcv: int, k: CounterKey)
    requires s.phase.Idle? && s.waiting != [] && KeyTallied(s, k)
    ensures KeyTallied(Appended(c, s, now, rcv), k)
  {
    var s1 := Taken(s, now);
    BegunTallied(s1, rcv, k);
  }

  lemma {:induction false} AlwaysTallied(c: Config, m: Matcher, t0: real, steps: seq<Step>)
    ensures Tallied(After(c, Initial(m, t0), steps))
  {
    if steps != [] {
      var n := |steps| - 1;
      AlwaysTallied(c, m, t0, steps[..n]);
      var s := After(c, Initial(m, t0), steps[..n]);
      forall k ensures KeyTallied(Exec(c, s, steps[n]), k) {
        StepTallied(c, s, steps[n], k);
      }
    }
  }

  /**
   At every step of every interleaving, whatever calls failed and whenever the process died, a counter
   is at most the number of stored rows it stands for. If nothing failed and no batch is being counted,
   in particular whenever the lock is free, the two are equal.
   */
  lemma {:induction false} CountersIndexEvents(c: Config, m: Matcher, t0: real, steps: seq<Step>, area: string, hour: int)
    requires area != ""
    ensures var s := After(c, Initial(m, t0), steps);
            && Get(s.tables.counters, (area, hour)) <= CountKey(s.tables.events, (area, hour))
            && (!s.hist.faulted && !s.phase.Counting? ==>
                  Get(s.tables.counters, (area, hour)) == CountKey(s.tables.events, (area, hour)))
  {
    AlwaysTallied(c, m, t0, steps);
    assert KeyTallied(After(c, Initial(m, t0), steps), (area, hour));
  }
}
