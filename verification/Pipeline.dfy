/**
 The ingest pipeline object (ingest/pipeline.py), method by method, when its calls are not interleaved.
 A ghost model follows along as a state of the transition system of module Machine, so everything
 proved there about all interleavings holds of this object too.
 */
module Pipeline {
  import opened Prelude
  import opened Counters
  import opened Store
  import opened Topology
  import opened Snapshots
  import opened Orchestrator
  import opened Privacy
  import opened Batches
  import opened Machine

  ghost predicate Reachable(c: Config, s: State) {
    exists m: Matcher, t0: real, steps: seq<Step> :: s == After(c, Initial(m, t0), steps)
  }

  lemma ReachNext(c: Config, s: State, st: Step)
    requires Reachable(c, s)
    ensures Reachable(c, Exec(c, s, st))
  {
    var m: Matcher, t0: real, steps: seq<Step> :| s == After(c, Initial(m, t0), steps);
    AfterNext(c, Initial(m, t0), steps, st);
    assert Exec(c, s, st) == After(c, Initial(m, t0), steps + [st]);
  }

  /** The counters after adding a whole dictionary. */
  function Added(m: map<CounterKey, int>, d: map<CounterKey, int>): map<CounterKey, int> {
    map k | k in m.Keys + d.Keys :: Get(m, k) + Get(d, k)
  }

  /** The entities table after bumping every entity of a dictionary once. */
  function Bumped(t: map<string, EntityRow>, last: map<string, int>): map<string, EntityRow> {
    map id | id in t ::
      var q := t[id];
      if id in last then
        q.(eventCount24h := q.eventCount24h + 1, totalEventCount := q.totalEventCount + 1, lastSeenAt := last[id])
      else q
  }

  /** The tables after one whole batch. */
  function Committed(t: Tables, buf: seq<Pending>, idx: Index, rcv: int): Tables {
    t.(events := t.events + RowsOf(buf, idx, rcv), counters := Added(t.counters, PerArea(buf, idx)),
       entities := Bumped(t.entities, LastTs(buf)))
  }

  /** The row-building loop; it has no await, so one index map serves the whole batch. */
  method BuildBatch(buf: seq<Pending>, idx: EntityIndex, rcv: int)
    returns (rows: seq<EventRow>, perArea: map<CounterKey, int>, last: map<string, int>)
    ensures rows == RowsOf(buf, idx.entries, rcv)
    ensures perArea == PerArea(buf, idx.entries)
    ensures last == LastTs(buf)
  {
    rows, perArea, last := [], map[], map[];
    for i := 0 to |buf|
      invariant rows == RowsOf(buf[..i], idx.entries, rcv)
      invariant perArea == PerArea(buf[..i], idx.entries)
      invariant last == LastTs(buf[..i])
    {
      assert buf[..i + 1][..i] == buf[..i];
      var ev, sid := buf[i].ev, buf[i].sid;
      var ref := idx.Lookup(ev.entityId);
      var area := if ref.Some? then ref.value.areaId else None;
      rows := rows + [EventRow(ev.ts, rcv, ev.entityId, ev.eventType, ev.oldState, ev.newState,
                               ev.contextUserId, ev.contextParentId, area,
                               if ref.Some? then ref.value.deviceId else None,
                               if ref.Some? then ref.value.deviceClass else None, sid)];
      if Truthy(area) {
        perArea := Increment(perArea, (area.value, BucketFor(ev.ts)), 1);
      }
      last := last[ev.entityId := ev.ts];
    }
    assert buf[..|buf|] == buf;
  }

  function Only<K(==), V>(m: map<K, V>, keys: set<K>): map<K, V> {
    map k | k in m && k in keys :: m[k]
  }

  method CountOne(dao: StoreDAO, k: CounterKey, n: int, fault: bool) returns (ok: bool)
    modifies dao
    ensures ok == !fault
    ensures dao.Contents() == if ok then old(dao.Contents()).(counters := Increment(old(dao.counters), k, n))
                              else old(dao.Contents())
  {
    var (area, hour) := k;
    ok := dao.IncrementCounter(area, hour, n, fault);
  }

  lemma AddedNone(m: map<CounterKey, int>, d: map<CounterKey, int>)
    ensures Added(m, Only(d, {})) == m
  {
  }

  /** `for (aid, bucket), n in per_area.items()`: database calls numbered from `first`, one of which may raise. */
  method AddCounters(dao: StoreDAO, perArea: map<CounterKey, int>, faultAt: int, first: int)
    returns (ok: bool, ghost done: set<CounterKey>)
    modifies dao
    ensures done <= perArea.Keys && (ok <==> done == perArea.Keys)
    ensures dao.Contents() == old(dao.Contents()).(counters := Added(old(dao.counters), Only(perArea, done)))
    ensures ok <==> !(first <= faultAt < first + |perArea|)
  {
    var rem := perArea;
    var call := first;
    ghost var t0 := dao.Contents();
    done := {};
    AddedNone(t0.counters, perArea);
    while rem != map[]
      invariant done <= perArea.Keys && rem == perArea - done
      invariant call + |rem| == first + |perArea| && first <= call && !(first <= faultAt < call)
      invariant dao.Contents() == t0.(counters := Added(t0.counters, Only(perArea, done)))
      decreases |rem|
    {
      var k :| k in rem;
      ok := CountOne(dao, k, rem[k], call == faultAt);
      if !ok { return; }
      OneLess(perArea, rem, done, k);
      AddedOne(t0.counters, perArea, done, k);
      rem, done, call := rem - {k}, done + {k}, call + 1;
    }
    assert done == perArea.Keys;
    ok := true;
  }

  lemma OneLess<K(!new), V(!new)>(m: map<K, V>, rem: map<K, V>, done: set<K>, k: K)
    requires rem == m - done && k in rem
    ensures |rem - {k}| == |rem| - 1 && rem[k] == m[k] && k !in done && rem - {k} == m - (done + {k})
  {
    SmallerWithout(rem, k);
  }

  lemma AddedOne(m: map<CounterKey, int>, d: map<CounterKey, int>, done: set<CounterKey>, k: CounterKey)
    requires done <= d.Keys && k in d && k !in done
    ensures Increment(Added(m, Only(d, done)), k, d[k]) == Added(m, Only(d, done + {k}))
  {
  }

  /** `for eid, last_ts in per_entity_last.items()`. */
  method BumpEntities(dao: StoreDAO, last: map<string, int>, faultAt: int, first: int)
    returns (ok: bool, ghost done: set<string>)
    modifies dao
    ensures done <= last.Keys && (ok <==> done == last.Keys)
    ensures dao.Contents() == old(dao.Contents()).(entities := Bumped(old(dao.entities), Only(last, done)))
    ensures ok <==> !(first <= faultAt < first + |last|)
  {
    var rem := last;
    var call := first;
    ghost var t0 := dao.Contents();
    done := {};
    assert t0.entities == Bumped(t0.entities, Only(last, done));
    while rem != map[]
      invariant done <= last.Keys && rem == last - done
      invariant call + |rem| == first + |last| && first <= call && !(first <= faultAt < call)
      invariant dao.Contents() == t0.(entities := Bumped(t0.entities, Only(last, done)))
      decreases |rem|
    {
      var id :| id in rem;
      ok := dao.BumpEntityEventCounts(id, rem[id], call == faultAt);
      if !ok { return; }
      OneLess(last, rem, done, id);
      BumpedOne(t0.entities, last, done, id);
      rem, done, call := rem - {id}, done + {id}, call + 1;
    }
    assert done == last.Keys;
    ok := true;
  }

  lemma BumpedOne(t: map<string, EntityRow>, last: map<string, int>, done: set<string>, id: string)
    requires done <= last.Keys && id in last && id !in done
    ensures Bump(Bumped(t, Only(last, done)), id, last[id]) == Bumped(t, Only(last, done + {id}))
  {
  }

  /** The database calls of a commit, in order, up to the first that raises. */
  datatype Progress =
    | NotInserted
    | CountedSome(counted: set<CounterKey>)
    | BumpedSome(bumped: set<string>)
    | Complete

  /** The tables a commit leaves behind at each point of progress. */
  function Partial(t: Tables, rows: seq<EventRow>, perArea: map<CounterKey, int>, last: map<string, int>, g: Progress)
    : Tables
  {
    match g
    case NotInserted => t
    case CountedSome(ks) => t.(events := t.events + rows, counters := Added(t.counters, Only(perArea, ks)))
    case BumpedSome(ids) =>
      t.(events := t.events + rows, counters := Added(t.counters, perArea), entities := Bumped(t.entities, Only(last, ids)))
    case Complete =>
      t.(events := t.events + rows, counters := Added(t.counters, perArea), entities := Bumped(t.entities, last))
  }

  /** The tables of a commit that a raising call cut short. */
  ghost predicate CutShort(
      t: Tables, t': Tables, rows: seq<EventRow>, perArea: map<CounterKey, int>, last: map<string, int>)
  {
    exists g: Progress ::
      && t' == Partial(t, rows, perArea, last, g)
      && !g.Complete? && (g.CountedSome? ==> g.counted < perArea.Keys) && (g.BumpedSome? ==> g.bumped < last.Keys)
  }

  /** The same for the batch built from a buffer. */
  ghost predicate Interrupted(t: Tables, t': Tables, buf: seq<Pending>, idx: Index, rcv: int) {
    CutShort(t, t', RowsOf(buf, idx, rcv), PerArea(buf, idx), LastTs(buf))
  }

  /**
   What becomes of an accepted event: below the batch size only the buffer grows; a full batch is committed,
   or left cut short with the buffer kept, exactly when one of its calls raises.
   */
  ghost predicate Accepted(t: Tables, t': Tables, full: seq<Pending>, buffer: seq<Pending>,
                           batchSize: int, idx: Index, rcv: int, faultAt: int, ok: bool) {
    && (|full| < batchSize ==> ok && buffer == full && t' == t)
    && (|full| >= batchSize && ok ==> buffer == [] && t' == Committed(t, full, idx, rcv))
    && (!ok ==> buffer == full && Interrupted(t, t', full, idx, rcv))
    && (ok <==> |full| < batchSize || !Raises(faultAt, full, idx))
  }

  /** Rows were only added, and the added ones were received at this time. */
  ghost predicate Received(before: seq<EventRow>, after: seq<EventRow>, rcv: int) {
    && |before| <= |after| && after[..|before|] == before
    && forall i :: |before| <= i < |after| ==> after[i].receivedAt == rcv
  }

  /** Whatever a commit leaves behind, complete or cut short, its rows carry its one clock reading. */
  lemma CommitReceives(t: Tables, t': Tables, buf: seq<Pending>, idx: Index, rcv: int)
    requires t' == t || t' == Committed(t, buf, idx, rcv) || Interrupted(t, t', buf, idx, rcv)
    ensures Received(t.events, t'.events, rcv)
  {
    assert t'.events == t.events || t'.events == t.events + RowsOf(buf, idx, rcv);
    forall k | 0 <= k < |buf| ensures RowsOf(buf, idx, rcv)[k].receivedAt == rcv {
      RowIs(buf[k], idx, rcv);
    }
  }

  /** One insert, one call per counter, one per entity: the calls of a commit, any of which may raise. */
  predicate Raises(faultAt: int, buf: seq<Pending>, idx: Index) {
    0 <= faultAt < 1 + |PerArea(buf, idx)| + |LastTs(buf)|
  }

  method WriteBatch(
      dao: StoreDAO, rows: seq<EventRow>, perArea: map<CounterKey, int>, last: map<string, int>, faultAt: int)
    returns (ok: bool, ghost g: Progress)
    requires rows != []
    modifies dao
    ensures dao.Contents() == Partial(old(dao.Contents()), rows, perArea, last, g)
    ensures ok <==> g.Complete?
    ensures g.CountedSome? ==> g.counted < perArea.Keys
    ensures g.BumpedSome? ==> g.bumped < last.Keys
    ensures ok <==> !(0 <= faultAt < 1 + |perArea| + |last|)
  {
    ok := dao.InsertEvents(rows, faultAt == 0);
    if !ok { return false, NotInserted; }
    ghost var counted;
    ok, counted := AddCounters(dao, perArea, faultAt, 1);
    if !ok { return false, CountedSome(counted); }
    assert Only(perArea, perArea.Keys) == perArea;
    ghost var bumped;
    ok, bumped := BumpEntities(dao, last, faultAt, 1 + |perArea|);
    if !ok { return false, BumpedSome(bumped); }
    assert Only(last, last.Keys) == last;
    return true, Complete;
  }

  // ---------- an uninterrupted commit as steps of the machine ----------

  lemma CountReachable(c: Config, s: State, rem: map<CounterKey, int>, last: map<string, int>, k: CounterKey)
    requires Reachable(c, s) && s.phase == NextCount(rem, last) && k in rem
    ensures Reachable(c, s.(tables := s.tables.(counters := Increment(s.tables.counters, k, rem[k])),
                            phase := NextCount(rem - {k}, last)))
  {
    ReachNext(c, s, CountOk(k));
  }

  lemma BumpReachable(c: Config, s: State, rem: map<string, int>, id: string)
    requires Reachable(c, s) && s.phase == Bumping(rem) && id in rem
    ensures Reachable(c, s.(tables := s.tables.(entities := Bump(s.tables.entities, id, rem[id])),
                            phase := Bumping(rem - {id})))
  {
    ReachNext(c, s, BumpOk(id));
  }

  /** Some of the counter steps, in some order. */
  lemma {:induction false} CountsReachable(
      c: Config, s: State, last: map<string, int>, d: map<CounterKey, int>, done: set<CounterKey>)
    requires Reachable(c, s) && s.phase == NextCount(d, last) && done <= d.Keys
    ensures Reachable(c, s.(tables := s.tables.(counters := Added(s.tables.counters, Only(d, done))),
                            phase := NextCount(d - done, last)))
    decreases |done|
  {
    if done == {} {
      assert d - done == d && Added(s.tables.counters, Only(d, done)) == s.tables.counters;
    } else {
      var k :| k in done;
      var rest := done - {k};
      CountsReachable(c, s, last, d, rest);
      var s1 := s.(tables := s.tables.(counters := Added(s.tables.counters, Only(d, rest))),
                   phase := NextCount(d - rest, last));
      CountReachable(c, s1, d - rest, last, k);
      AddedOne(s.tables.counters, d, rest, k);
      assert rest + {k} == done && (d - rest) - {k} == d - done;
    }
  }

  lemma {:induction false} BumpsReachable(c: Config, s: State, last: map<string, int>, done: set<string>)
    requires Reachable(c, s) && s.phase == Bumping(last) && done <= last.Keys
    ensures Reachable(c, s.(tables := s.tables.(entities := Bumped(s.tables.entities, Only(last, done))),
                            phase := Bumping(last - done)))
    decreases |done|
  {
    if done == {} {
      assert last - done == last && Bumped(s.tables.entities, Only(last, done)) == s.tables.entities;
    } else {
      var id :| id in done;
      var rest := done - {id};
      BumpsReachable(c, s, last, rest);
      var s1 := s.(tables := s.tables.(entities := Bumped(s.tables.entities, Only(last, rest))),
                   phase := Bumping(last - rest));
      BumpReachable(c, s1, last - rest, id);
      BumpedOne(s.tables.entities, last, rest, id);
      assert rest + {id} == done && (last - rest) - {id} == last - done;
    }
  }

  /** What a run of the machine that commits without interruption ends in. */
  ghost predicate CommitEnds(s: State, s': State, g: Progress)
    requires s.phase.Inserting?
  {
    && s'.phase.Idle?
    && s'.tables == Partial(s.tables, s.phase.rows, s.phase.perArea, s.phase.last, g)
    && s'.buffer == (if g.Complete? then [] else s.buffer)
    && s'.firstAdded == (if g.Complete? then None else s.firstAdded)
    && s'.matchers == s.matchers && s'.index == s.index && s'.waiting == s.waiting && s'.dropping == s.dropping
    && s'.clock == s.clock && s'.snapshots == s.snapshots
  }

  /** Inserted, and the counters of these keys added. */
  ghost function CountedState(s: State, ks: set<CounterKey>): State
    requires s.phase.Inserting?
  {
    var s1 := Stored(s);
    s1.(tables := s1.tables.(counters := Added(s.tables.counters, Only(s.phase.perArea, ks))),
        phase := NextCount(s.phase.perArea - ks, s.phase.last))
  }

  /** Inserted, counted, and these entities bumped. */
  ghost function BumpedState(s: State, ids: set<string>): State
    requires s.phase.Inserting?
  {
    var s1 := Stored(s);
    s1.(tables := s1.tables.(counters := Added(s.tables.counters, s.phase.perArea),
                             entities := Bumped(s.tables.entities, Only(s.phase.last, ids))),
        phase := Bumping(s.phase.last - ids))
  }

  lemma CountedReachable(c: Config, s: State, ks: set<CounterKey>)
    requires Reachable(c, s) && s.phase.Inserting? && ks <= s.phase.perArea.Keys
    ensures Reachable(c, CountedState(s, ks))
  {
    ReachNext(c, s, InsertOk);
    CountsReachable(c, Stored(s), s.phase.last, s.phase.perArea, ks);
  }

  lemma BumpedReachable(c: Config, s: State, ids: set<string>)
    requires Reachable(c, s) && s.phase.Inserting? && ids <= s.phase.last.Keys
    ensures Reachable(c, BumpedState(s, ids))
  {
    var pa := s.phase.perArea;
    CountedReachable(c, s, pa.Keys);
    assert Only(pa, pa.Keys) == pa && pa - pa.Keys == map[];
    BumpsReachable(c, CountedState(s, pa.Keys), s.phase.last, ids);
  }

  lemma CommitReachable(c: Config, s: State, g: Progress) returns (s': State)
    requires Reachable(c, s) && s.phase.Inserting?
    requires g.CountedSome? ==> g.counted < s.phase.perArea.Keys
    requires g.BumpedSome? ==> g.bumped < s.phase.last.Keys
    ensures Reachable(c, s') && CommitEnds(s, s', g)
  {
    match g
    case NotInserted =>
      ReachNext(c, s, Fail);
      s' := Exec(c, s, Fail);
    case CountedSome(ks) =>
      CountedReachable(c, s, ks);
      ReachNext(c, CountedState(s, ks), Fail);
      s' := Exec(c, CountedState(s, ks), Fail);
    case BumpedSome(ids) =>
      BumpedReachable(c, s, ids);
      ReachNext(c, BumpedState(s, ids), Fail);
      s' := Exec(c, BumpedState(s, ids), Fail);
    case Complete =>
      var last := s.phase.last;
      BumpedReachable(c, s, last.Keys);
      assert Only(last, last.Keys) == last && last - last.Keys == map[];
      ReachNext(c, BumpedState(s, last.Keys), Finish);
      s' := Exec(c, BumpedState(s, last.Keys), Finish);
  }

  /** The phase a commit of this buffer starts in. */
  function Building(s: State, buf: seq<Pending>, rcv: int): Phase {
    Inserting(RowsOf(buf, s.index, rcv), PerArea(buf, s.index), LastTs(buf), s.index, s.indexId, rcv)
  }

  lemma FlushBegins(c: Config, s: State, rcv: int) returns (s': State)
    requires Reachable(c, s) && s.phase.Idle? && s.buffer != []
    ensures Reachable(c, s') && s' == s.(phase := Building(s, Pendings(s.buffer), rcv))
  {
    ReachNext(c, s, Flush(rcv));
    s' := Exec(c, s, Flush(rcv));
  }

  lemma TickBegins(c: Config, s: State, now: real, rcv: int) returns (s': State)
    requires Reachable(c, s) && s.phase.Idle? && s.buffer != [] && s.clock <= now
    requires s.firstAdded.Some? && now - s.firstAdded.value >= c.interval
    ensures Reachable(c, s') && s' == s.(clock := now, phase := Building(s, Pendings(s.buffer), rcv))
  {
    ReachNext(c, s, Tick(now, rcv));
    s' := Exec(c, s, Tick(now, rcv));
  }

  lemma TickPasses(c: Config, s: State, now: real, rcv: int) returns (s': State)
    requires Reachable(c, s) && s.phase.Idle? && s.clock <= now
    requires s.firstAdded.None? || now - s.firstAdded.value < c.interval || s.buffer == []
    ensures Reachable(c, s') && s' == s.(clock := now)
  {
    ReachNext(c, s, Tick(now, rcv));
    s' := Exec(c, s, Tick(now, rcv));
  }

  lemma SubmitHides(c: Config, s: State, ev: HAEvent, nowMs: int) returns (s': State)
    requires Reachable(c, s) && Matches(Current(s), ev.entityId)
    ensures Reachable(c, s') && s' == s.(dropping := s.dropping + [BucketFor(nowMs)], hist := s'.hist)
  {
    ReachNext(c, s, Submit(ev, nowMs));
    s' := Exec(c, s, Submit(ev, nowMs));
  }

  lemma SubmitQueues(c: Config, s: State, ev: HAEvent, nowMs: int) returns (s': State)
    requires Reachable(c, s) && !Matches(Current(s), ev.entityId) && s.waiting == []
    ensures Reachable(c, s') && s' == s.(waiting := s'.waiting, hist := s'.hist) && |s'.waiting| == 1
    ensures s'.waiting[0].p == Pending(ev, if ev.entityId in s.index then s.index[ev.entityId].snapshotId else 0)
  {
    ReachNext(c, s, Submit(ev, nowMs));
    s' := Exec(c, s, Submit(ev, nowMs));
  }

  lemma AppendBegins(c: Config, s: State, now: real, rcv: int) returns (s': State)
    requires Reachable(c, s) && s.phase.Idle? && s.waiting != [] && s.clock <= now
    requires |s.buffer| + 1 >= c.batchSize
    ensures Reachable(c, s')
    ensures s' == Taken(s, now).(phase := Building(s, Pendings(Taken(s, now).buffer), rcv))
  {
    ReachNext(c, s, Append(now, rcv));
    s' := Exec(c, s, Append(now, rcv));
    assert |Pendings(Taken(s, now).buffer)| > 0;
  }

  datatype FlushTask = NotStarted | Running | Died | Ended

  class IngestPipeline {
    const dao: StoreDAO
    const idx: EntityIndex
    const batchSize: int
    const interval: real
    var matcher: Matcher
    var buffer: seq<Pending>
    var firstAdded: Option<real>
    var flushTask: FlushTask

    ghost const cfg: Config
    ghost var model: State

    /** The state stands for the object's fields, the store's tables and the index; the phase is free. */
    ghost predicate StandsFor(s: State)
      reads this, dao, idx
    {
      && cfg.batchSize == batchSize && cfg.interval == interval
      && Pendings(s.buffer) == buffer && s.firstAdded == firstAdded
      && s.matchers != [] && Current(s) == matcher
      && s.index == idx.entries
      && s.waiting == [] && s.dropping == []
      && s.tables.entities == dao.entities && s.tables.events == dao.events
      && s.tables.counters == dao.counters && s.tables.drops == dao.drops
    }

    ghost predicate Linked()
      reads this, dao, idx
    {
      Reachable(cfg, model) && StandsFor(model)
    }

    ghost predicate Valid()
      reads this, dao, idx
    {
      Linked() && model.phase.Idle?
    }

    constructor (dao: StoreDAO, idx: EntityIndex, matcher: Matcher, batchSize: int, interval: real, hash: Hash,
                 ghost start: State)
      requires Reachable(Config(batchSize, interval, hash), start) && start.phase.Idle?
      requires start.buffer == [] && start.firstAdded.None? && start.waiting == [] && start.dropping == []
      requires start.matchers != [] && Current(start) == matcher && start.index == idx.entries
      requires start.tables.entities == dao.entities && start.tables.events == dao.events
      requires start.tables.counters == dao.counters && start.tables.drops == dao.drops
      ensures Valid() && buffer == [] && flushTask.NotStarted?
      ensures this.dao == dao && this.idx == idx && this.matcher == matcher && model == start
      ensures this.batchSize == batchSize && this.interval == interval
    {
      this.dao, this.idx, this.matcher := dao, idx, matcher;
      this.batchSize, this.interval := batchSize, interval;
      buffer, firstAdded, flushTask := [], None, NotStarted;
      cfg, model := Config(batchSize, interval, hash), start;
    }

    method Start()
      requires Valid()
      modifies this`flushTask
      ensures Valid() && flushTask.Running?
    {
      flushTask := Running;
    }

    ghost method Follow(st: Step)
      requires Reachable(cfg, model)
      modifies this`model
      ensures model == Exec(cfg, old(model), st) && Reachable(cfg, model)
    {
      ReachNext(cfg, model, st);
      model := Exec(cfg, model, st);
    }

    /** The part of `_commit_locked` from the first database call on, the batch being built. */
    method RunCommit(rows: seq<EventRow>, perArea: map<CounterKey, int>, last: map<string, int>, faultAt: int)
      returns (ok: bool)
      requires Linked() && buffer != [] && rows != []
      requires model.phase.Inserting? && model.phase.rows == rows && model.phase.perArea == perArea
      requires model.phase.last == last
      modifies this`model, this`buffer, this`firstAdded, dao
      ensures Valid()
      ensures ok ==> buffer == [] && firstAdded.None?
      ensures ok ==> dao.Contents() == old(dao.Contents()).(
                       events := old(dao.events) + rows, counters := Added(old(dao.counters), perArea),
                       entities := Bumped(old(dao.entities), last))
      ensures !ok ==> buffer == old(buffer) && firstAdded == old(firstAdded)
      ensures !ok ==> CutShort(old(dao.Contents()), dao.Contents(), rows, perArea, last)
      ensures ok <==> !(0 <= faultAt < 1 + |perArea| + |last|)
    {
      ghost var g;
      ok, g := WriteBatch(dao, rows, perArea, last, faultAt);
      if ok {
        buffer, firstAdded := [], None;
      }
      model := CommitReachable(cfg, model, g);
    }

    /**
     `_commit_locked`, as `flush` calls it. Database call number `faultAt` raises, if there is one; the
     exception leaves buffer and first-added time as they were, whatever is already in the tables.
     */
    method FlushBuffer(rcv: int, faultAt: int) returns (ok: bool)
      requires Valid()
      modifies this`model, this`buffer, this`firstAdded, dao
      ensures Valid()
      ensures old(buffer) == [] ==>
                ok && dao.Contents() == old(dao.Contents()) && buffer == [] && firstAdded == old(firstAdded)
      ensures ok && old(buffer) != [] ==>
                && buffer == [] && firstAdded.None?
                && dao.Contents() == Committed(old(dao.Contents()), old(buffer), idx.entries, rcv)
      ensures !ok ==> buffer == old(buffer) && firstAdded == old(firstAdded)
      ensures !ok ==> Interrupted(old(dao.Contents()), dao.Contents(), buffer, idx.entries, rcv)
      ensures ok <==> old(buffer) == [] || !Raises(faultAt, old(buffer), idx.entries)
      ensures Received(old(dao.events), dao.events, rcv)
    {
      if buffer == [] { return true; }
      var rows, perArea, last := BuildBatch(buffer, idx, rcv);
      model := FlushBegins(cfg, model, rcv);
      ok := RunCommit(rows, perArea, last, faultAt);
      CommitReceives(old(dao.Contents()), dao.Contents(), old(buffer), idx.entries, rcv);
    }

    /** One wake-up of the periodic flush; an exception ends that loop for good. */
    method WakeUp(now: real, rcv: int, faultAt: int)
      requires Valid() && flushTask.Running? && model.clock <= now
      modifies this`model, this`buffer, this`firstAdded, this`flushTask, dao
      ensures Valid()
      ensures old(firstAdded).Some? && now - old(firstAdded).value >= interval && flushTask.Running? && old(buffer) != [] ==>
                buffer == [] && dao.Contents() == Committed(old(dao.Contents()), old(buffer), idx.entries, rcv)
      ensures old(firstAdded).None? || now - old(firstAdded).value < interval ==>
                flushTask.Running? && buffer == old(buffer) && dao.Contents() == old(dao.Contents())
      ensures flushTask.Died? <==> old(firstAdded).Some? && now - old(firstAdded).value >= interval && old(buffer) != []
                                   && Raises(faultAt, old(buffer), idx.entries)
      ensures flushTask.Running?
              || (flushTask.Died? && buffer == old(buffer) && firstAdded == old(firstAdded)
                  && Interrupted(old(dao.Contents()), dao.Contents(), buffer, idx.entries, rcv))
      ensures Received(old(dao.events), dao.events, rcv)
    {
      if firstAdded.None? || now - firstAdded.value < interval || buffer == [] {
        model := TickPasses(cfg, model, now, rcv);
        return;
      }
      var ok := CommitDue(now, rcv, faultAt);
      if !ok {
        flushTask := Died;
      }
    }

    method CommitDue(now: real, rcv: int, faultAt: int) returns (ok: bool)
      requires Valid() && model.clock <= now && buffer != []
      requires firstAdded.Some? && now - firstAdded.value >= interval
      modifies this`model, this`buffer, this`firstAdded, dao
      ensures Valid()
      ensures ok ==> buffer == [] && dao.Contents() == Committed(old(dao.Contents()), old(buffer), idx.entries, rcv)
      ensures !ok ==> buffer == old(buffer) && firstAdded == old(firstAdded)
      ensures !ok ==> Interrupted(old(dao.Contents()), dao.Contents(), buffer, idx.entries, rcv)
      ensures ok <==> !Raises(faultAt, old(buffer), idx.entries)
      ensures Received(old(dao.events), dao.events, rcv)
    {
      var rows, perArea, last := BuildBatch(buffer, idx, rcv);
      model := TickBegins(cfg, model, now, rcv);
      ok := RunCommit(rows, perArea, last, faultAt);
      CommitReceives(old(dao.Contents()), dao.Contents(), old(buffer), idx.entries, rcv);
    }

    /**
     `stop`: awaiting a flush loop that died raises its exception again, before the final flush. So the buffer
     is written out if and only if it was empty, or the loop is alive and the final commit goes through.
     */
    method Stop(rcv: int, faultAt: int) returns (ok: bool)
      requires Valid()
      modifies this`model, this`buffer, this`firstAdded, this`flushTask, dao
      ensures Valid()
      ensures old(flushTask).Died? ==> !ok && buffer == old(buffer) && dao.Contents() == old(dao.Contents())
      ensures ok <==> !old(flushTask).Died? && (old(buffer) == [] || !Raises(faultAt, old(buffer), idx.entries))
      ensures buffer == [] <==> old(buffer) == [] || ok
      ensures ok && old(buffer) != [] ==>
                dao.Contents() == Committed(old(dao.Contents()), old(buffer), idx.entries, rcv)
      ensures Received(old(dao.events), dao.events, rcv)
    {
      if flushTask.Died? { return false; }
      if flushTask.Running? { flushTask := Ended; }
      ok := FlushBuffer(rcv, faultAt);
    }

    /** `on_cfg_change` in main.py: later submits are filtered by the new matcher. */
    method SwapHide(m: Matcher)
      requires Valid()
      modifies this`model, this`matcher
      ensures Valid() && matcher == m
    {
      matcher := m;
      Follow(SwapMatcher(m));
    }

    /** `submit`, with the lock free: drop and count a hidden event, else buffer it and commit a full batch. */
    method SubmitEvent(ev: HAEvent, nowMs: int, now: real, rcv: int, faultAt: int) returns (ok: bool)
      requires Valid() && model.clock <= now
      modifies this`model, this`buffer, this`firstAdded, dao
      ensures Valid()
      ensures Matches(matcher, ev.entityId) ==>
                && buffer == old(buffer) && firstAdded == old(firstAdded) && ok == (faultAt != 0)
                && dao.Contents() == if ok then old(dao.Contents()).(drops := Increment(old(dao.drops), BucketFor(nowMs), 1))
                                     else old(dao.Contents())
      ensures !Matches(matcher, ev.entityId) ==>
                var ref := idx.Lookup(ev.entityId);
                Accepted(old(dao.Contents()), dao.Contents(),
                         old(buffer) + [Pending(ev, if ref.Some? then ref.value.snapshotId else 0)], buffer,
                         batchSize, idx.entries, rcv, faultAt, ok)
      ensures Received(old(dao.events), dao.events, rcv)
    {
      var ref := idx.Lookup(ev.entityId);
      if ref.Some? && Matches(matcher, ev.entityId) {
        ok := SubmitHidden(ev, nowMs, faultAt == 0);
        return;
      }
      if ref.None? && Matches(matcher, ev.entityId) {
        ok := SubmitHidden(ev, nowMs, faultAt == 0);
        return;
      }
      var sid := if ref.Some? then ref.value.snapshotId else 0;
      ok := SubmitVisible(ev, sid, nowMs, now, rcv, faultAt);
    }

    method SubmitHidden(ev: HAEvent, nowMs: int, fault: bool) returns (ok: bool)
      requires Valid() && Matches(matcher, ev.entityId)
      modifies this`model, dao
      ensures Valid() && ok == !fault
      ensures dao.Contents() == if ok then old(dao.Contents()).(drops := Increment(old(dao.drops), BucketFor(nowMs), 1))
                                else old(dao.Contents())
    {
      model := SubmitHides(cfg, model, ev, nowMs);
      ok := DropHidden(nowMs, fault);
    }

    method SubmitVisible(ev: HAEvent, sid: int, nowMs: int, now: real, rcv: int, faultAt: int) returns (ok: bool)
      requires Valid() && !Matches(matcher, ev.entityId) && model.clock <= now
      requires sid == if idx.Lookup(ev.entityId).Some? then idx.Lookup(ev.entityId).value.snapshotId else 0
      modifies this`model, this`buffer, this`firstAdded, dao
      ensures Valid()
      ensures Accepted(old(dao.Contents()), dao.Contents(), old(buffer) + [Pending(ev, sid)], buffer,
                       batchSize, idx.entries, rcv, faultAt, ok)
      ensures Received(old(dao.events), dao.events, rcv)
    {
      model := SubmitQueues(cfg, model, ev, nowMs);
      ok := AppendAndCommit(Pending(ev, sid), now, rcv, faultAt);
    }

    method DropHidden(nowMs: int, fault: bool) returns (ok: bool)
      requires Reachable(cfg, model) && model.phase.Idle? && model.dropping == [BucketFor(nowMs)]
      requires StandsFor(model.(dropping := []))
      modifies this`model, dao
      ensures Valid() && ok == !fault
      ensures dao.Contents() == if ok then old(dao.Contents()).(drops := Increment(old(dao.drops), BucketFor(nowMs), 1))
                                else old(dao.Contents())
    {
      ok := dao.IncrementPrivacyDrop(BucketFor(nowMs), 1, fault);
      if ok {
        Follow(DropOk(0));
      } else {
        Follow(DropFail(0));
      }
    }

    /** The locked part of `submit`. */
    method AppendAndCommit(p: Pending, now: real, rcv: int, faultAt: int) returns (ok: bool)
      requires Reachable(cfg, model) && model.phase.Idle? && model.clock <= now
      requires |model.waiting| == 1 && model.waiting[0].p == p && StandsFor(model.(waiting := []))
      modifies this`model, this`buffer, this`firstAdded, dao
      ensures Valid()
      ensures Accepted(old(dao.Contents()), dao.Contents(), old(buffer) + [p], buffer,
                       batchSize, idx.entries, rcv, faultAt, ok)
      ensures Received(old(dao.events), dao.events, rcv)
    {
      buffer := buffer + [p];
      if firstAdded.None? {
        firstAdded := Some(now);
      }
      if |buffer| >= batchSize {
        ok := CommitFull(now, rcv, faultAt);
      } else {
        Follow(Append(now, rcv));
        ok := true;
      }
    }

    /** The batch is full: commit what is in the buffer, the newest event included. */
    method CommitFull(now: real, rcv: int, faultAt: int) returns (ok: bool)
      requires Reachable(cfg, model) && model.phase.Idle? && model.clock <= now
      requires |model.waiting| == 1 && |buffer| >= batchSize && StandsFor(Taken(model, now))
      modifies this`model, this`buffer, this`firstAdded, dao
      ensures Valid()
      ensures ok ==> buffer == [] && dao.Contents() == Committed(old(dao.Contents()), old(buffer), idx.entries, rcv)
      ensures !ok ==> buffer == old(buffer)
                      && Interrupted(old(dao.Contents()), dao.Contents(), buffer, idx.entries, rcv)
      ensures ok <==> !Raises(faultAt, old(buffer), idx.entries)
      ensures Received(old(dao.events), dao.events, rcv)
    {
      assert |Pendings(Taken(model, now).buffer)| > 0;
      var rows, perArea, last := BuildBatch(buffer, idx, rcv);
      model := AppendBegins(cfg, model, now, rcv);
      ok := RunCommit(rows, perArea, last, faultAt);
      CommitReceives(old(dao.Contents()), dao.Contents(), old(buffer), idx.entries, rcv);
    }
  }
}
