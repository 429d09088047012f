/**
 The ingest pipeline as a transition system (ingest/pipeline.py and its callers in main.py).
 One step is what runs between two awaits, or one database call taking effect. A step that is not
 enabled does nothing, so every interleaving is some sequence of steps, and every sequence of steps
 is an interleaving.
 */
module Machine {
  import opened Prelude
  import opened Counters
  import opened Store
  import opened Topology
  import opened Snapshots
  import opened Privacy
  import opened Batches

  /** `batchSize` is any integer; below 1 the code commits on every submit, as it does for 1. */
  datatype Config = Config(batchSize: int, interval: real, hash: Hash)

  /** A pending event with the history of its submit: its number, and the index version and matcher then in force. */
  datatype Ticket = Ticket(p: Pending, n: nat, at: int, rule: nat)

  function Pendings(ts: seq<Ticket>): (ps: seq<Pending>)
    ensures |ps| == |ts| && forall i :: 0 <= i < |ts| ==> ps[i] == ts[i].p
  {
    seq(|ts|, i requires 0 <= i < |ts| => ts[i].p)
  }

  /** The lock is free in Idle; the other phases hold it, waiting for a database call. */
  datatype Phase =
    | Idle
    | Inserting(rows: seq<EventRow>, perArea: map<CounterKey, int>, last: map<string, int>,
                used: Index, usedId: int, rcv: int)
    | Counting(perArea: map<CounterKey, int>, last: map<string, int>)
    | Bumping(last: map<string, int>)

  /** History of one committed batch: the index map it was enriched with, its entities and its clock reading. */
  datatype Batch = Batch(used: Index, usedId: int, ids: set<string>, rcv: int)

  /** History of one events row. */
  datatype Entry = Entry(ticket: Ticket, batch: nat)

  /** Variables that no code reads; they record what has happened. */
  datatype History = History(
    submits: seq<HAEvent>, arrived: seq<Ticket>, hidden: nat,
    log: seq<Entry>, batches: seq<Batch>, born: map<string, nat>,
    lost: multiset<Ticket>, faulted: bool)

  datatype State = State(
    index: Index, indexId: int, matchers: seq<Matcher>, snapshots: map<int, Payload>,
    buffer: seq<Ticket>, firstAdded: Option<real>, times: seq<real>, clock: real,
    phase: Phase,
    waiting: seq<Ticket>,  // submits past the filter, queued for the lock in arrival order
    dropping: seq<int>,    // hidden submits whose drop counter update is still to come
    tables: Tables, hist: History)

  datatype Step =
    | Submit(ev: HAEvent, nowMs: int)
    | DropOk(i: nat)
    | DropFail(i: nat)
    | Append(now: real, rcv: int)
    | Flush(rcv: int)
    | Tick(now: real, rcv: int)
    | InsertOk
    | CountOk(k: CounterKey)
    | BumpOk(id: string)
    | Finish
    | Fail
    | StoreVersion(version: int, p: Payload)
    | Rebuild(version: int, p: Payload)
    | UpsertRows(rows: seq<EntityRow>)
    | SwapMatcher(m: Matcher)
    | Crash(m: Matcher, now: real)

  function Initial(m: Matcher, now: real): State {
    State(map[], 0, [m], map[], [], None, [], now, Idle, [], [], EMPTY_TABLES,
          History([], [], 0, [], [], map[], multiset{}, false))
  }

  function Current(s: State): Matcher {
    if s.matchers == [] then [] else s.matchers[|s.matchers| - 1]
  }

  function Without<T>(q: seq<T>, i: nat): seq<T>
    requires i < |q|
  {
    q[..i] + q[i + 1..]
  }

  // ---------- the steps ----------

  /** Up to the first await of `submit`: look up, filter, then queue for the lock or for the drop counter. */
  function Submitted(s: State, ev: HAEvent, nowMs: int): State {
    var h := s.hist.(submits := s.hist.submits + [ev]);
    if Matches(Current(s), ev.entityId) then
      s.(dropping := s.dropping + [BucketFor(nowMs)], hist := h.(hidden := h.hidden + 1))
    else
      var ref := RefIn(s.index, ev.entityId);
      var rule: nat := if s.matchers == [] then 0 else |s.matchers| - 1;
      var t := Ticket(Pending(ev, if ref.Some? then ref.value.snapshotId else 0), |s.hist.arrived|, s.indexId, rule);
      s.(waiting := s.waiting + [t], hist := h.(arrived := h.arrived + [t]))
  }

  /** The synchronous start of `_commit_locked`. */
  function Begun(s: State, rcv: int): State {
    if s.buffer == [] then s
    else
      var buf := Pendings(s.buffer);
      s.(phase := Inserting(RowsOf(buf, s.index, rcv), PerArea(buf, s.index), LastTs(buf), s.index, s.indexId, rcv))
  }

  /** The head of the lock queue has been moved to the buffer. */
  function Taken(s: State, now: real): State
    requires s.waiting != []
  {
    s.(buffer := s.buffer + [s.waiting[0]], waiting := s.waiting[1..],
       firstAdded := if s.firstAdded.None? then Some(now) else s.firstAdded, times := s.times + [now], clock := now)
  }

  /** The queue's head gets the lock: append, and commit at once when the batch is full. */
  function Appended(c: Config, s: State, now: real, rcv: int): State
    requires s.waiting != []
  {
    var s1 := Taken(s, now);
    if |s1.buffer| >= c.batchSize then Begun(s1, rcv) else s1
  }

  /** One wake-up of `_periodic_flush`. */
  function Ticked(c: Config, s: State, now: real, rcv: int): State {
    var s1 := s.(clock := now);
    if s.firstAdded.Some? && now - s.firstAdded.value >= c.interval then Begun(s1, rcv) else s1
  }

  function NextCount(perArea: map<CounterKey, int>, last: map<string, int>): Phase {
    if perArea == map[] then Bumping(last) else Counting(perArea, last)
  }

  function Entries(ts: seq<Ticket>, b: nat): (es: seq<Entry>)
    ensures |es| == |ts| && forall i :: 0 <= i < |ts| ==> es[i] == Entry(ts[i], b)
  {
    seq(|ts|, i requires 0 <= i < |ts| => Entry(ts[i], b))
  }

  function Stored(s: State): State
    requires s.phase.Inserting?
  {
    var ph := s.phase;
    var h := s.hist;
    s.(tables := s.tables.(events := s.tables.events + ph.rows),
       phase := NextCount(ph.perArea, ph.last),
       hist := h.(log := h.log + Entries(s.buffer, |h.batches|),
                  batches := h.batches + [Batch(ph.used, ph.usedId, ph.last.Keys, ph.rcv)]))
  }

  /** Whether the batch in flight has yet to bump the entity. */
  predicate BumpDue(ph: Phase, id: string) {
    (ph.Counting? || ph.Bumping?) && id in ph.last
  }

  /** A created row is credited with every later batch, and with the one in flight if its bump is still due. */
  function Born(s: State, before: map<string, EntityRow>, after: map<string, EntityRow>): map<string, nat> {
    map id | id in after ::
      if id in before && id in s.hist.born then s.hist.born[id]
      else if BumpDue(s.phase, id) && s.hist.batches != [] then |s.hist.batches| - 1
      else |s.hist.batches|
  }

  /** The process dies and starts again on the same database, with an empty index. */
  function Crashed(s: State, m: Matcher, now: real): State {
    var quiet := s.phase.Idle? && s.buffer == [] && s.waiting == [] && s.dropping == [];
    var notInserted := if s.phase.Counting? || s.phase.Bumping? then multiset{} else multiset(s.buffer);
    s.(index := map[], indexId := 0, matchers := s.matchers + [m],
       buffer := [], firstAdded := None, times := [], clock := now, phase := Idle, waiting := [], dropping := [],
       hist := s.hist.(lost := s.hist.lost + notInserted + multiset(s.waiting),
                       faulted := s.hist.faulted || !quiet))
  }

  predicate Enabled(c: Config, s: State, st: Step) {
    match st
    case Submit(_, _) => true
    case DropOk(i) => i < |s.dropping|
    case DropFail(i) => i < |s.dropping|
    case Append(now, _) => s.phase.Idle? && s.waiting != [] && s.clock <= now
    case Flush(_) => s.phase.Idle?
    case Tick(now, _) => s.phase.Idle? && s.clock <= now
    case InsertOk => s.phase.Inserting?
    case CountOk(k) => s.phase.Counting? && k in s.phase.perArea
    case BumpOk(id) => s.phase.Bumping? && id in s.phase.last
    case Finish => s.phase == Bumping(map[])
    case Fail => !s.phase.Idle?
    case StoreVersion(v, _) => v >= 1 && v !in s.snapshots
    case Rebuild(v, p) => v in s.snapshots && c.hash(s.snapshots[v]) == c.hash(p)
    case UpsertRows(rows) => forall i :: 0 <= i < |rows| ==> rows[i].totalEventCount == 0
    case SwapMatcher(_) => true
    case Crash(_, _) => true
  }

  function Exec(c: Config, s: State, st: Step): State {
    if !Enabled(c, s, st) then s
    else
      match st
      case Submit(ev, nowMs) => Submitted(s, ev, nowMs)
      case DropOk(i) =>
        s.(tables := s.tables.(drops := Increment(s.tables.drops, s.dropping[i], 1)), dropping := Without(s.dropping, i))
      case DropFail(i) => s.(dropping := Without(s.dropping, i), hist := s.hist.(faulted := true))
      case Append(now, rcv) => Appended(c, s, now, rcv)
      case Flush(rcv) => Begun(s, rcv)
      case Tick(now, rcv) => Ticked(c, s, now, rcv)
      case InsertOk => Stored(s)
      case CountOk(k) =>
        s.(tables := s.tables.(counters := Increment(s.tables.counters, k, s.phase.perArea[k])),
           phase := NextCount(s.phase.perArea - {k}, s.phase.last))
      case BumpOk(id) =>
        s.(tables := s.tables.(entities := Bump(s.tables.entities, id, s.phase.last[id])),
           phase := Bumping(s.phase.last - {id}))
      case Finish => s.(buffer := [], firstAdded := None, times := [], phase := Idle)
      case Fail => s.(phase := Idle, hist := s.hist.(faulted := true))
      case StoreVersion(v, p) => s.(snapshots := s.snapshots[v := p])
      case Rebuild(v, p) => s.(index := Build(p, v), indexId := v)
      case UpsertRows(rows) =>
        var after := UpsertEntities(s.tables.entities, rows);
        s.(tables := s.tables.(entities := after), hist := s.hist.(born := Born(s, s.tables.entities, after)))
      case SwapMatcher(m) => s.(matchers := s.matchers + [m])
      case Crash(m, now) => Crashed(s, m, now)
  }

  /** The state after a sequence of steps. */
  function After(c: Config, s: State, steps: seq<Step>): State {
    if steps == [] then s
    else Exec(c, After(c, s, steps[..|steps| - 1]), steps[|steps| - 1])
  }

  lemma AfterNext(c: Config, s: State, steps: seq<Step>, st: Step)
    ensures After(c, s, steps + [st]) == Exec(c, After(c, s, steps), st)
  {
    assert (steps + [st])[..|steps|] == steps;
  }

  lemma {:induction false} AfterConcat(c: Config, s: State, a: seq<Step>, b: seq<Step>)
    ensures After(c, s, a + b) == After(c, After(c, s, a), b)
  {
    if b == [] {
      assert a + b == a;
    } else {
      assert (a + b)[..|a + b| - 1] == a + b[..|b| - 1];
      AfterConcat(c, s, a, b[..|b| - 1]);
    }
  }

  lemma AfterFive(c: Config, s: State, steps: seq<Step>)
    requires |steps| == 5
    ensures After(c, s, steps)
            == Exec(c, Exec(c, Exec(c, Exec(c, Exec(c, s, steps[0]), steps[1]), steps[2]), steps[3]), steps[4])
  {
    assert steps[..4][..3] == steps[..3] && steps[..3][..2] == steps[..2] && steps[..2][..1] == steps[..1];
    assert steps[..1][..0] == [];
    assert After(c, s, steps[..1]) == Exec(c, s, steps[0]);
    assert After(c, s, steps[..2]) == Exec(c, After(c, s, steps[..1]), steps[1]);
    assert After(c, s, steps[..3]) == Exec(c, After(c, s, steps[..2]), steps[2]);
    assert After(c, s, steps[..4]) == Exec(c, After(c, s, steps[..3]), steps[3]);
  }

  // ---------- what steps leave alone ----------

  /** Steps that can start a commit. */
  predicate IsCommitStart(st: Step) {
    st.Append? || st.Flush? || st.Tick?
  }

  lemma BegunFrame(s: State, rcv: int)
    ensures Begun(s, rcv) == s.(phase := Begun(s, rcv).phase)
  {
  }

  /** Starting a commit, or not, changes nothing but the buffer with its times and the phase. */
  lemma StartFrame(c: Config, s: State, st: Step)
    requires IsCommitStart(st)
    ensures var s' := Exec(c, s, st);
            && s'.tables == s.tables && s'.hist == s.hist && s'.snapshots == s.snapshots
            && s'.index == s.index && s'.indexId == s.indexId
            && s'.matchers == s.matchers && s'.dropping == s.dropping
  {
    if Enabled(c, s, st) {
      match st
      case Append(now, rcv) =>
        var s1 := Taken(s, now);
        BegunFrame(s1, rcv);
      case Flush(rcv) => BegunFrame(s, rcv);
      case Tick(now, rcv) => BegunFrame(s.(clock := now), rcv);
    }
  }

  lemma EventsStand(c: Config, s: State, st: Step)
    requires !st.InsertOk?
    ensures var s' := Exec(c, s, st);
            s'.tables.events == s.tables.events && s'.hist.log == s.hist.log && s'.hist.batches == s.hist.batches
  {
    if IsCommitStart(st) {
      StartFrame(c, s, st);
    }
  }

  lemma CountersStand(c: Config, s: State, st: Step)
    requires !st.CountOk?
    ensures Exec(c, s, st).tables.counters == s.tables.counters
  {
    if IsCommitStart(st) {
      StartFrame(c, s, st);
    }
  }

  lemma EntitiesStand(c: Config, s: State, st: Step)
    requires !st.BumpOk? && !st.UpsertRows?
    ensures Exec(c, s, st).tables.entities == s.tables.entities
  {
    if IsCommitStart(st) {
      StartFrame(c, s, st);
    }
  }

  lemma BirthsStand(c: Config, s: State, st: Step)
    requires !st.UpsertRows?
    ensures Exec(c, s, st).hist.born == s.hist.born
  {
    if IsCommitStart(st) {
      StartFrame(c, s, st);
    }
  }

  lemma SubmitsStand(c: Config, s: State, st: Step)
    requires !st.Submit?
    ensures var s' := Exec(c, s, st);
            s'.hist.submits == s.hist.submits && s'.hist.arrived == s.hist.arrived && s'.hist.hidden == s.hist.hidden
  {
    if IsCommitStart(st) {
      StartFrame(c, s, st);
    }
  }

  lemma TopologyStands(c: Config, s: State, st: Step)
    requires !st.StoreVersion? && !st.Rebuild? && !st.Crash?
    ensures var s' := Exec(c, s, st);
            s'.index == s.index && s'.indexId == s.indexId && s'.snapshots == s.snapshots
  {
    if IsCommitStart(st) {
      StartFrame(c, s, st);
    }
  }

  lemma VersionsStand(c: Config, s: State, st: Step)
    requires !st.StoreVersion?
    ensures Exec(c, s, st).snapshots == s.snapshots
  {
    if IsCommitStart(st) {
      StartFrame(c, s, st);
    }
  }

  /** A fresh batch appears only with a commit start, and the bumps still due only through the batch's own steps. */
  lemma InsertingStands(c: Config, s: State, st: Step)
    requires !IsCommitStart(st)
    ensures Exec(c, s, st).phase.Inserting? ==> Exec(c, s, st).phase == s.phase && Exec(c, s, st).buffer == s.buffer
  {
  }

  lemma PhaseStands(c: Config, s: State, st: Step)
    requires !IsCommitStart(st) && !st.InsertOk? && !st.CountOk?
    ensures var s' := Exec(c, s, st);
            && (s'.phase == s.phase || s'.phase.Idle? || s'.phase.Bumping?)
            && (!s'.hist.faulted ==> !s.hist.faulted && (s.phase.Counting? ==> s'.phase == s.phase))
            && (s'.phase.Bumping? && s'.phase != s.phase ==> s.phase.Bumping?)
  {
  }

  // ---------- events accepted but not yet stored ----------

  /** Whether the buffer's events are still missing from the events table. */
  predicate BufferUnstored(ph: Phase) {
    ph.Idle? || ph.Inserting?
  }

  function Tickets(log: seq<Entry>): (ts: seq<Ticket>)
    ensures |ts| == |log| && forall i :: 0 <= i < |log| ==> ts[i] == log[i].ticket
  {
    seq(|log|, i requires 0 <= i < |log| => log[i].ticket)
  }
}
