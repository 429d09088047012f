/** No accepted event is lost or invented, and nothing hidden is stored, through every interleaving. */
module Conservation {
  import opened Prelude
  import opened Store
  import opened Privacy
  import opened Batches
  import opened Machine

  // ---------- what a stored row is made of ----------

  /** Each row is its ticket's event, enriched from the one index map of its batch. */
  ghost predicate Logged(s: State) {
    && |s.hist.log| == |s.tables.events|
    && (forall i :: 0 <= i < |s.hist.log| ==>
          && s.hist.log[i].batch < |s.hist.batches|
          && s.tables.events[i]
             == RowOf(s.hist.log[i].ticket.p, s.hist.batches[s.hist.log[i].batch].used,
                      s.hist.batches[s.hist.log[i].batch].rcv))
    && (s.phase.Inserting? ==>
          && |s.phase.rows| == |s.buffer|
          && forall i :: 0 <= i < |s.buffer| ==>
               s.phase.rows[i] == RowOf(s.buffer[i].p, s.phase.used, s.phase.rcv))
  }

  lemma StoredLogged(s: State)
    requires s.phase.Inserting? && Logged(s)
    ensures Logged(Stored(s))
  {
    var s' := Stored(s);
    var stored := |s.hist.log|;
    forall i | 0 <= i < |s'.hist.log|
      ensures && s'.hist.log[i].batch < |s'.hist.batches|
              && s'.tables.events[i]
                 == RowOf(s'.hist.log[i].ticket.p, s'.hist.batches[s'.hist.log[i].batch].used,
                          s'.hist.batches[s'.hist.log[i].batch].rcv)
    {
      if i >= stored {
        assert s'.tables.events[i] == s.phase.rows[i - stored];
        assert s'.hist.log[i] == Entry(s.buffer[i - stored], |s.hist.batches|);
      } else {
        assert s'.hist.log[i] == s.hist.log[i] && s'.tables.events[i] == s.tables.events[i];
      }
    }
  }

  lemma StepLogged(c: Config, s: State, st: Step)
    requires Logged(s)
    ensures Logged(Exec(c, s, st))
  {
    if st.InsertOk? {
      if s.phase.Inserting? {
        StoredLogged(s);
      }
    } else {
      EventsStand(c, s, st);
      if IsCommitStart(st) {
        StartLogged(c, s, st);
      } else {
        InsertingStands(c, s, st);
      }
    }
  }

  lemma StartLogged(c: Config, s: State, st: Step)
    requires IsCommitStart(st)
    ensures var s' := Exec(c, s, st);
            s'.phase.Inserting? ==>
              || (s'.phase == s.phase && s'.buffer == s.buffer)
              || (|s'.phase.rows| == |s'.buffer|
                  && forall i :: 0 <= i < |s'.buffer| ==>
                       s'.phase.rows[i] == RowOf(s'.buffer[i].p, s'.phase.used, s'.phase.rcv))
  {
  }

  // ---------- nothing lost ----------

  function Unstored(s: State): seq<Ticket> {
    if BufferUnstored(s.phase) then s.buffer else []
  }

  ghost function Accounted(s: State): multiset<Ticket> {
    multiset(Tickets(s.hist.log)) + multiset(Unstored(s)) + multiset(s.waiting) + s.hist.lost
  }

  /** Everything accepted is stored, buffered, queued for the lock, or went down with a crash. */
  ghost predicate Kept(s: State) {
    multiset(s.hist.arrived) <= Accounted(s)
  }

  /** Without failures: exactly once each, in submit order. */
  ghost predicate InOrder(s: State) {
    !s.hist.faulted ==> s.hist.arrived == Tickets(s.hist.log) + Unstored(s) + s.waiting
  }

  lemma StoredTickets(s: State)
    requires s.phase.Inserting?
    ensures Tickets(Stored(s).hist.log) == Tickets(s.hist.log) + s.buffer
    ensures Unstored(Stored(s)) == []
  {
  }

  lemma AppendedKept(c: Config, s: State, now: real, rcv: int)
    requires s.phase.Idle? && s.waiting != []
    ensures Accounted(Appended(c, s, now, rcv)) == Accounted(s)
  {
    var s' := Appended(c, s, now, rcv);
    assert Unstored(s') == s.buffer + [s.waiting[0]] && s'.hist == s.hist;
    assert s.waiting == [s.waiting[0]] + s'.waiting;
  }

  lemma CrashedKept(s: State, m: Matcher, now: real)
    ensures Accounted(s) <= Accounted(Crashed(s, m, now))
  {
    var s' := Crashed(s, m, now);
    assert s'.hist.log == s.hist.log && Unstored(s') == [] && s'.waiting == [];
    assert s'.hist.lost == s.hist.lost + multiset(Unstored(s)) + multiset(s.waiting);
  }

  lemma SubmittedKept(s: State, ev: HAEvent, nowMs: int)
    requires Kept(s)
    ensures Kept(Submitted(s, ev, nowMs))
  {
    var s' := Submitted(s, ev, nowMs);
    assert s'.hist.log == s.hist.log && Unstored(s') == Unstored(s) && s'.hist.lost == s.hist.lost;
    if s'.waiting != s.waiting {
      var t := s'.waiting[|s.waiting|];
      assert s'.waiting == s.waiting + [t] && s'.hist.arrived == s.hist.arrived + [t];
    }
  }

  lemma StoredKept(s: State)
    requires s.phase.Inserting?
    ensures Accounted(Stored(s)) == Accounted(s) && Stored(s).hist.arrived == s.hist.arrived
  {
    StoredTickets(s);
    assert Unstored(s) == s.buffer && Stored(s).waiting == s.waiting;
  }

  lemma OthersAccounted(c: Config, s: State, st: Step)
    requires !st.Submit? && !st.Append? && !st.InsertOk? && !st.Crash?
    ensures Accounted(s) <= Accounted(Exec(c, s, st))
  {
    OtherStepsKeep(c, s, st);
  }

  /** Nothing accounted for disappears. */
  lemma AccountedGrows(c: Config, s: State, st: Step)
    requires !st.Submit? && Enabled(c, s, st)
    ensures Accounted(s) <= Accounted(Exec(c, s, st))
  {
    match st
    case Append(now, rcv) =>
      AppendedKept(c, s, now, rcv);
      assert Exec(c, s, st) == Appended(c, s, now, rcv);
    case InsertOk =>
      StoredKept(s);
      assert Exec(c, s, st) == Stored(s);
    case Crash(m, now) =>
      CrashedKept(s, m, now);
      assert Exec(c, s, st) == Crashed(s, m, now);
    case _ => OthersAccounted(c, s, st);
  }

  lemma KeptOn(arrived: multiset<Ticket>, a: multiset<Ticket>, b: multiset<Ticket>)
    requires arrived <= a <= b
    ensures arrived <= b
  {
  }

  lemma StepKept(c: Config, s: State, st: Step)
    requires Kept(s)
    ensures Kept(Exec(c, s, st))
  {
    if Enabled(c, s, st) {
      if st.Submit? {
        SubmittedKept(s, st.ev, st.nowMs);
        assert Exec(c, s, st) == Submitted(s, st.ev, st.nowMs);
      } else {
        SubmitsStand(c, s, st);
        AccountedGrows(c, s, st);
        KeptOn(multiset(s.hist.arrived), Accounted(s), Accounted(Exec(c, s, st)));
      }
    }
  }

  lemma OtherStepsKeep(c: Config, s: State, st: Step)
    requires !st.Submit? && !st.Append? && !st.InsertOk? && !st.Crash?
    ensures var s' := Exec(c, s, st);
            && s'.hist.arrived == s.hist.arrived && s'.hist.log == s.hist.log && s'.hist.lost == s.hist.lost
            && s'.waiting == s.waiting && multiset(Unstored(s)) <= multiset(Unstored(s'))
  {
  }

  lemma SubmittedInOrder(s: State, ev: HAEvent, nowMs: int)
    requires InOrder(s)
    ensures InOrder(Submitted(s, ev, nowMs))
  {
    var s' := Submitted(s, ev, nowMs);
    if s'.waiting != s.waiting && !s.hist.faulted {
      var t := s'.waiting[|s.waiting|];
      assert Tickets(s.hist.log) + Unstored(s) + (s.waiting + [t])
             == (Tickets(s.hist.log) + Unstored(s) + s.waiting) + [t];
    }
  }

  lemma AppendedInOrder(c: Config, s: State, now: real, rcv: int)
    requires InOrder(s) && s.phase.Idle? && s.waiting != []
    ensures InOrder(Appended(c, s, now, rcv))
  {
    var t := s.waiting[0];
    assert s.waiting == [t] + s.waiting[1..];
    assert Tickets(s.hist.log) + (s.buffer + [t]) + s.waiting[1..]
           == Tickets(s.hist.log) + s.buffer + s.waiting;
  }

  lemma StoredInOrder(s: State)
    requires s.phase.Inserting? && InOrder(s)
    ensures InOrder(Stored(s))
  {
    StoredTickets(s);
    assert Tickets(s.hist.log) + s.buffer + s.waiting == Tickets(Stored(s).hist.log) + [] + s.waiting;
  }

  /** Other steps that are no failures leave what is stored and what is under way as it is. */
  lemma OrderStands(c: Config, s: State, st: Step)
    requires !st.Submit? && !st.Append? && !st.InsertOk?
    ensures var s' := Exec(c, s, st);
            !s'.hist.faulted ==> !s.hist.faulted && Unstored(s') == Unstored(s) && s'.waiting == s.waiting
  {
  }

  lemma StepInOrder(c: Config, s: State, st: Step)
    requires InOrder(s)
    ensures InOrder(Exec(c, s, st))
  {
    if Enabled(c, s, st) {
      match st
      case Submit(ev, nowMs) => SubmittedInOrder(s, ev, nowMs);
      case Append(now, rcv) => AppendedInOrder(c, s, now, rcv);
      case InsertOk => StoredInOrder(s);
      case _ =>
        OrderStands(c, s, st);
        SubmitsStand(c, s, st);
        EventsStand(c, s, st);
    }
  }

  // ---------- nothing invented, nothing hidden ----------

  /** Tickets in flight or stored were accepted, and each was past the matcher in force at its submit. */
  ghost predicate Genuine(s: State) {
    && (forall t :: t in s.buffer ==> t in s.hist.arrived)
    && (forall t :: t in s.waiting ==> t in s.hist.arrived)
    && (forall i :: 0 <= i < |s.hist.log| ==> s.hist.log[i].ticket in s.hist.arrived)
    && (forall i :: 0 <= i < |s.hist.arrived| ==> Unhidden(s.matchers, s.hist.arrived[i]) && s.hist.arrived[i].n == i)
    && |s.matchers| > 0
  }

  predicate Unhidden(ms: seq<Matcher>, t: Ticket) {
    t.rule < |ms| && !Matches(ms[t.rule], t.p.ev.entityId)
  }

  lemma StoredGenuine(s: State)
    requires s.phase.Inserting? && Genuine(s)
    ensures Genuine(Stored(s))
  {
    var s' := Stored(s);
    forall i | 0 <= i < |s'.hist.log| ensures s'.hist.log[i].ticket in s'.hist.arrived {
      if i >= |s.hist.log| {
        assert s'.hist.log[i].ticket == s.buffer[i - |s.hist.log|];
      } else {
        assert s'.hist.log[i] == s.hist.log[i];
      }
    }
  }

  lemma MatchersGrow(c: Config, s: State, st: Step)
    ensures s.matchers <= Exec(c, s, st).matchers
  {
  }

  /** Tickets move from submit to queue, from queue to buffer, and out. */
  lemma TicketsMove(c: Config, s: State, st: Step)
    requires !st.Submit?
    ensures var s' := Exec(c, s, st);
            && (forall t :: t in s'.buffer ==> t in s.buffer || t in s.waiting)
            && (forall t :: t in s'.waiting ==> t in s.waiting)
  {
  }

  lemma SubmittedGenuine(s: State, ev: HAEvent, nowMs: int)
    requires Genuine(s)
    ensures Genuine(Submitted(s, ev, nowMs))
  {
  }

  lemma StepGenuine(c: Config, s: State, st: Step)
    requires Genuine(s)
    ensures Genuine(Exec(c, s, st))
  {
    match st
    case Submit(ev, nowMs) => SubmittedGenuine(s, ev, nowMs);
    case InsertOk => if s.phase.Inserting? { StoredGenuine(s); }
    case _ =>
      SubmitsStand(c, s, st);
      EventsStand(c, s, st);
      MatchersGrow(c, s, st);
      TicketsMove(c, s, st);
      OthersGenuine(s, Exec(c, s, st));
  }

  lemma OthersGenuine(s: State, s': State)
    requires Genuine(s) && s'.hist.arrived == s.hist.arrived && s'.hist.log == s.hist.log && s.matchers <= s'.matchers
    requires forall t :: t in s'.buffer ==> t in s.buffer || t in s.waiting
    requires forall t :: t in s'.waiting ==> t in s.waiting
    ensures Genuine(s')
  {
    forall i | 0 <= i < |s'.hist.arrived|
      ensures Unhidden(s'.matchers, s'.hist.arrived[i]) && s'.hist.arrived[i].n == i
    {
      assert Unhidden(s.matchers, s.hist.arrived[i]);
    }
  }

  // ---------- totals ----------

  ghost predicate Totalled(s: State) {
    && |s.hist.submits| == |s.hist.arrived| + s.hist.hidden
    && (!s.hist.faulted ==> Sum(s.tables.drops) + |s.dropping| == s.hist.hidden)
  }

  lemma DroppedTotalled(s: State, i: nat)
    requires Totalled(s) && i < |s.dropping|
    ensures Totalled(s.(tables := s.tables.(drops := Increment(s.tables.drops, s.dropping[i], 1)),
                        dropping := Without(s.dropping, i)))
  {
    var b := s.dropping[i];
    SumPut(s.tables.drops, b, Get(s.tables.drops, b) + 1);
  }

  lemma DropsStand(c: Config, s: State, st: Step)
    requires !st.DropOk?
    ensures Exec(c, s, st).tables.drops == s.tables.drops
  {
    if IsCommitStart(st) {
      StartFrame(c, s, st);
    }
  }

  lemma DroppingStands(c: Config, s: State, st: Step)
    requires !st.Submit? && !st.DropOk?
    ensures var s' := Exec(c, s, st);
            !s'.hist.faulted ==> !s.hist.faulted && s'.dropping == s.dropping
  {
  }

  lemma StepTotalled(c: Config, s: State, st: Step)
    requires Totalled(s)
    ensures Totalled(Exec(c, s, st))
  {
    if Enabled(c, s, st) {
      match st
      case Submit(ev, nowMs) =>
      case DropOk(i) => DroppedTotalled(s, i);
      case _ =>
        SubmitsStand(c, s, st);
        DropsStand(c, s, st);
        DroppingStands(c, s, st);
    }
  }

  // ---------- over whole runs ----------

  ghost predicate Conserved(s: State) {
    Logged(s) && Kept(s) && InOrder(s) && Genuine(s) && Totalled(s)
  }

  lemma {:induction false} StepConserved(c: Config, s: State, st: Step)
    requires Conserved(s)
    ensures Conserved(Exec(c, s, st))
  {
    StepLogged(c, s, st);
    StepKept(c, s, st);
    StepInOrder(c, s, st);
    StepGenuine(c, s, st);
    StepTotalled(c, s, st);
  }

  lemma {:induction false} AlwaysConserved(c: Config, m: Matcher, t0: real, steps: seq<Step>)
    ensures Conserved(After(c, Initial(m, t0), steps))
  {
    if steps != [] {
      AlwaysConserved(c, m, t0, steps[..|steps| - 1]);
      StepConserved(c, After(c, Initial(m, t0), steps[..|steps| - 1]), steps[|steps| - 1]);
    }
  }

  lemma {:induction false} NoCrashNoneLost(c: Config, s: State, steps: seq<Step>)
    requires forall i :: 0 <= i < |steps| ==> !steps[i].Crash?
    ensures After(c, s, steps).hist.lost == s.hist.lost
  {
    if steps != [] {
      NoCrashNoneLost(c, s, steps[..|steps| - 1]);
    }
  }

  /**
   At every step of every interleaving, failed calls included, an accepted event is in the events table
   (as its own row, with its own data), in the buffer, or queued for the lock; only a crash of the process loses any.
   */
  lemma {:induction false} NoEventLost(c: Config, m: Matcher, t0: real, steps: seq<Step>, t: Ticket)
    requires forall i :: 0 <= i < |steps| ==> !steps[i].Crash?
    requires t in After(c, Initial(m, t0), steps).hist.arrived
    ensures var s := After(c, Initial(m, t0), steps);
            || t in s.buffer
            || t in s.waiting
            || (|s.hist.log| == |s.tables.events|
                && exists i :: 0 <= i < |s.hist.log| && s.hist.log[i].ticket == t && PendingOf(s.tables.events[i]) == t.p)
  {
    var s := After(c, Initial(m, t0), steps);
    AlwaysConserved(c, m, t0, steps);
    NoCrashNoneLost(c, Initial(m, t0), steps);
    assert t in multiset(s.hist.arrived);
    assert t in multiset(Tickets(s.hist.log)) + multiset(Unstored(s)) + multiset(s.waiting);
    if t in multiset(Tickets(s.hist.log)) {
      TicketHasRow(s, t);
    }
  }

  lemma TicketHasRow(s: State, t: Ticket)
    requires Logged(s) && t in Tickets(s.hist.log)
    ensures exists i :: 0 <= i < |s.hist.log| && s.hist.log[i].ticket == t && PendingOf(s.tables.events[i]) == t.p
  {
    var i :| 0 <= i < |s.hist.log| && Tickets(s.hist.log)[i] == t;
    assert s.hist.log[i].ticket == t;
    RowRemembersPending(t.p, s.hist.batches[s.hist.log[i].batch].used, s.hist.batches[s.hist.log[i].batch].rcv);
  }

  /**
   With no failure and the lock free: stored rows, then buffer, then queue are the accepted events in
   submit order, each once; and rows, buffered, queued and dropped events add up to the submits.
   */
  lemma {:induction false} ExactlyOnceInOrder(c: Config, m: Matcher, t0: real, steps: seq<Step>)
    requires var s := After(c, Initial(m, t0), steps); !s.hist.faulted && s.phase.Idle?
    ensures var s := After(c, Initial(m, t0), steps);
            && StoredEvents(s.tables.events) + Pendings(s.buffer) + Pendings(s.waiting) == Pendings(s.hist.arrived)
            && |s.tables.events| + |s.buffer| + |s.waiting| + Sum(s.tables.drops) + |s.dropping| == |s.hist.submits|
  {
    AlwaysConserved(c, m, t0, steps);
    var s := After(c, Initial(m, t0), steps);
    StoredPendings(s);
    PendingsConcat(Tickets(s.hist.log), s.buffer, s.waiting);
  }

  function StoredEvents(rows: seq<EventRow>): (ps: seq<Pending>)
    ensures |ps| == |rows| && forall i :: 0 <= i < |rows| ==> ps[i] == PendingOf(rows[i])
  {
    seq(|rows|, i requires 0 <= i < |rows| => PendingOf(rows[i]))
  }

  lemma StoredPendings(s: State)
    requires Logged(s)
    ensures StoredEvents(s.tables.events) == Pendings(Tickets(s.hist.log))
  {
    forall i | 0 <= i < |s.hist.log|
      ensures PendingOf(s.tables.events[i]) == s.hist.log[i].ticket.p
    {
      var b := s.hist.batches[s.hist.log[i].batch];
      RowRemembersPending(s.hist.log[i].ticket.p, b.used, b.rcv);
    }
  }

  lemma PendingsConcat(a: seq<Ticket>, b: seq<Ticket>, d: seq<Ticket>)
    ensures Pendings(a + b + d) == Pendings(a) + Pendings(b) + Pendings(d)
    ensures |Pendings(a + b + d)| == |a| + |b| + |d|
  {
  }

  /** A commit reads the clock once, when it starts, and every row it builds carries that reading. */
  lemma CommitReadsClock(c: Config, s: State, st: Step)
    requires IsCommitStart(st) && s.phase.Idle? && Exec(c, s, st).phase.Inserting?
    ensures var ph := Exec(c, s, st).phase;
            ph.rcv == st.rcv && forall k :: 0 <= k < |ph.rows| ==> ph.rows[k].receivedAt == st.rcv
  {
  }

  /** Every row of every run carries the clock reading of the batch that stored it. */
  lemma {:induction false} RowsCarryReception(c: Config, m: Matcher, t0: real, steps: seq<Step>, i: nat)
    requires i < |After(c, Initial(m, t0), steps).tables.events|
    ensures var s := After(c, Initial(m, t0), steps);
            i < |s.hist.log| && s.hist.log[i].batch < |s.hist.batches|
            && s.tables.events[i].receivedAt == s.hist.batches[s.hist.log[i].batch].rcv
  {
    AlwaysConserved(c, m, t0, steps);
  }

  /** Every stored row is an accepted event that the matcher in force at its submit did not hide. */
  lemma {:induction false} StoredRowsWereUnhidden(c: Config, m: Matcher, t0: real, steps: seq<Step>, i: nat)
    requires i < |After(c, Initial(m, t0), steps).tables.events|
    ensures var s := After(c, Initial(m, t0), steps);
            exists t :: t in s.hist.arrived && PendingOf(s.tables.events[i]) == t.p && Unhidden(s.matchers, t)
                        && t.p.ev.entityId == s.tables.events[i].entityId
  {
    AlwaysConserved(c, m, t0, steps);
    var s := After(c, Initial(m, t0), steps);
    var t := s.hist.log[i].ticket;
    RowRemembersPending(t.p, s.hist.batches[s.hist.log[i].batch].used, s.hist.batches[s.hist.log[i].batch].rcv);
    assert t in s.hist.arrived;
  }
}
