/** How large and how old the buffer can get (batch policy of ingest/pipeline.py). */
module BatchAge {
  import opened Prelude
  import opened Store
  import opened Privacy
  import opened Batches
  import opened Machine

  ghost predicate Aged(c: Config, s: State) {
    && |s.times| == |s.buffer|
    && (s.firstAdded.None? <==> s.buffer == [])
    && (s.buffer != [] ==> s.firstAdded == Some(s.times[0]))
    && (forall i, j :: 0 <= i < j < |s.times| ==> s.times[i] <= s.times[j])
    && (forall i :: 0 <= i < |s.times| ==> s.times[i] <= s.clock)
    && (!s.phase.Idle? ==> s.buffer != [])
    && (s.phase.Idle? && !s.hist.faulted && s.buffer != [] ==> |s.buffer| < c.batchSize)
  }

  lemma AppendedAged(c: Config, s: State, now: real, rcv: int)
    requires Aged(c, s) && s.phase.Idle? && s.waiting != [] && s.clock <= now
    ensures Aged(c, Appended(c, s, now, rcv))
  {
  }

  /** Other steps keep the buffer with its times, or empty it. */
  lemma OthersAged(c: Config, s: State, st: Step)
    requires Aged(c, s) && !st.Append?
    ensures Aged(c, Exec(c, s, st))
  {
  }

  lemma StepAged(c: Config, s: State, st: Step)
    requires Aged(c, s)
    ensures Aged(c, Exec(c, s, st))
  {
    if !st.Append? {
      OthersAged(c, s, st);
    } else if Enabled(c, s, st) {
      AppendedAged(c, s, st.now, st.rcv);
    }
  }

  lemma {:induction false} AlwaysAged(c: Config, m: Matcher, t0: real, steps: seq<Step>)
    ensures Aged(c, After(c, Initial(m, t0), steps))
  {
    if steps != [] {
      AlwaysAged(c, m, t0, steps[..|steps| - 1]);
      StepAged(c, After(c, Initial(m, t0), steps[..|steps| - 1]), steps[|steps| - 1]);
    }
  }

  /**
   Whenever the lock is free: the first-added time is absent exactly for an empty buffer and otherwise
   that of its oldest event; and without failures a non-empty buffer is below the batch size.
   */
  lemma BufferBounded(c: Config, m: Matcher, t0: real, steps: seq<Step>)
    requires After(c, Initial(m, t0), steps).phase.Idle?
    ensures var s := After(c, Initial(m, t0), steps);
            && (s.firstAdded.None? <==> s.buffer == [])
            && (s.firstAdded.Some? ==>
                  |s.times| == |s.buffer| && forall i :: 0 <= i < |s.times| ==> s.firstAdded.value <= s.times[i])
            && (!s.hist.faulted && s.buffer != [] ==> |s.buffer| < c.batchSize)
  {
    AlwaysAged(c, m, t0, steps);
  }

  /** A tick either starts committing the whole buffer or leaves only events younger than the interval. */
  lemma TickLeavesYoungEvents(c: Config, m: Matcher, t0: real, steps: seq<Step>, now: real, rcv: int)
    requires var s := After(c, Initial(m, t0), steps); s.phase.Idle? && s.clock <= now
    ensures var s := After(c, Initial(m, t0), steps);
            var s' := Exec(c, s, Tick(now, rcv));
            && s'.buffer == s.buffer && s'.times == s.times && |s.times| == |s.buffer|
            && (s'.phase.Inserting? ==> |s'.phase.rows| == |s.buffer|)
            && (!s'.phase.Inserting? ==>
                  s'.phase.Idle? && forall i :: 0 <= i < |s.times| ==> now - s.times[i] < c.interval)
  {
    AlwaysAged(c, m, t0, steps);
  }

  /** The lock is held until the last of these steps. */
  ghost predicate LockHeld(c: Config, s: State, steps: seq<Step>) {
    forall k :: 0 <= k < |steps| ==> !After(c, s, steps[..k]).phase.Idle?
  }

  predicate NoFailure(steps: seq<Step>) {
    forall i :: 0 <= i < |steps| ==> !steps[i].Fail? && !steps[i].Crash?
  }

  /** Short of a failure, the lock is given back only by a commit that has emptied the buffer. */
  lemma FreedEmpty(c: Config, s: State, st: Step)
    requires !s.phase.Idle? && !st.Fail? && !st.Crash? && Exec(c, s, st).phase.Idle?
    ensures Exec(c, s, st).buffer == [] && Exec(c, s, st).times == []
  {
  }

  /**
   When the lock is next free after a wake-up, its commit, if it started one, having met no failure: every
   buffered event is younger than the interval.
   */
  lemma {:induction false} FreeAfterTick(
      c: Config, m: Matcher, t0: real, steps: seq<Step>, now: real, rcv: int, during: seq<Step>)
    requires var s := After(c, Initial(m, t0), steps); s.phase.Idle? && s.clock <= now
    requires var s1 := Exec(c, After(c, Initial(m, t0), steps), Tick(now, rcv));
             NoFailure(during) && LockHeld(c, s1, during) && After(c, s1, during).phase.Idle?
    ensures var s := After(c, Initial(m, t0), steps);
            var s1 := Exec(c, s, Tick(now, rcv));
            var s2 := After(c, s1, during);
            && |s2.times| == |s2.buffer|
            && (forall i :: 0 <= i < |s2.times| ==> now - s2.times[i] < c.interval)
            && (s1.phase.Inserting? ==> s2.buffer == [])
            && (!s1.phase.Inserting? ==> s2.buffer == s.buffer)
  {
    var s1 := Exec(c, After(c, Initial(m, t0), steps), Tick(now, rcv));
    TickLeavesYoungEvents(c, m, t0, steps, now, rcv);
    if during != [] {
      var n := |during| - 1;
      assert during[..0] == [] && After(c, s1, during[..0]) == s1;
      FreedEmpty(c, After(c, s1, during[..n]), during[n]);
    }
  }
}
