/** The areas page (web/routes/areas.py): the counter fold, the entity folds and what the figure means. */
module AreasRoute {
  import opened Prelude
  import opened Counters
  import opened Store
  import opened Privacy
  import opened Batches
  import opened Machine
  import opened CounterIndex

  // ---------- the 24-hour figure ----------

  ghost predicate IsRecent(recent: map<CounterKey, int>, counters: map<CounterKey, int>, nowHour: int) {
    && (forall k :: k in recent <==> k in counters && k.1 > nowHour - 24)
    && (forall k :: k in recent ==> recent[k] == counters[k])
  }

  function OfArea(m: map<CounterKey, int>, area: string): map<CounterKey, int> {
    map k | k in m && k.0 == area :: m[k]
  }

  /** The figure: the sum of the area's counters among those read. */
  ghost function Figure(m: map<CounterKey, int>, area: string): int {
    Sum(OfArea(m, area))
  }

  /** A direct count of stored rows. */
  function CountSince(rows: seq<EventRow>, area: string, t: int): nat {
    if rows == [] then 0
    else
      var r := rows[|rows| - 1];
      CountSince(rows[..|rows| - 1], area, t) + if r.areaId == Some(area) && r.ts >= t then 1 else 0
  }

  lemma {:induction false} CountSinceIs(rows: seq<EventRow>, area: string, t: int, n: nat)
    requires n <= |rows|
    ensures CountSince(rows[..n], area, t)
            == Tally(n, i => 0 <= i < |rows| && rows[i].areaId == Some(area) && rows[i].ts >= t)
  {
    if n > 0 {
      CountSinceIs(rows, area, t, n - 1);
      TallyNext(n - 1, i => 0 <= i < |rows| && rows[i].areaId == Some(area) && rows[i].ts >= t);
      assert rows[..n][..n - 1] == rows[..n - 1];
    }
  }

  /** Rows whose counter key is among `keys`. */
  function CountIn(rows: seq<EventRow>, keys: set<CounterKey>): nat {
    if rows == [] then 0
    else
      var r := rows[|rows| - 1];
      CountIn(rows[..|rows| - 1], keys)
      + if Truthy(r.areaId) && (r.areaId.value, BucketFor(r.ts)) in keys then 1 else 0
  }

  ghost function CountsOn(keys: set<CounterKey>, rows: seq<EventRow>): map<CounterKey, int> {
    map k | k in keys :: CountKey(rows, k)
  }

  lemma {:induction false} SumZero<K(!new)>(m: map<K, int>)
    requires forall k :: k in m ==> m[k] == 0
    ensures Sum(m) == 0
    decreases |m|
  {
    if m != map[] {
      var k :| k in m;
      SmallerWithout(m, k);
      SumSplit(m, k);
      SumZero(m - {k});
    }
  }

  lemma {:induction false} SumBelow<K(!new)>(m: map<K, int>, n: map<K, int>)
    requires m.Keys == n.Keys && forall k :: k in m ==> m[k] <= n[k]
    ensures Sum(m) <= Sum(n)
    decreases |m|
  {
    if m == map[] {
      assert n == map[];
    } else {
      var k :| k in m;
      SmallerWithout(m, k);
      SumSplit(m, k);
      SumSplit(n, k);
      SumBelow(m - {k}, n - {k});
    }
  }

  /** Summing per-key counts counts each row once. */
  lemma {:induction false} SumOfCounts(keys: set<CounterKey>, rows: seq<EventRow>)
    requires forall k :: k in keys ==> k.0 != ""
    ensures Sum(CountsOn(keys, rows)) == CountIn(rows, keys)
  {
    if rows == [] {
      SumZero(CountsOn(keys, rows));
    } else {
      var n := |rows| - 1;
      SumOfCounts(keys, rows[..n]);
      var r := rows[n];
      var before, after := CountsOn(keys, rows[..n]), CountsOn(keys, rows);
      if Truthy(r.areaId) && (r.areaId.value, BucketFor(r.ts)) in keys {
        var k := (r.areaId.value, BucketFor(r.ts));
        SumPut(before, k, before[k] + 1);
        assert after == before[k := before[k] + 1];
      } else {
        assert after == before;
      }
    }
  }

  lemma {:induction false} HitCounts(rows: seq<EventRow>, i: nat, k: CounterKey)
    requires i < |rows| && Hits(rows[i], k)
    ensures CountKey(rows, k) > 0
  {
    if i < |rows| - 1 {
      HitCounts(rows[..|rows| - 1], i, k);
    }
  }

  /** An hour range in keys is a time range in rows; it is all of it when every row's key is present. */
  lemma {:induction false} CountInRange(rows: seq<EventRow>, keys: set<CounterKey>, area: string, nowHour: int)
    requires area != ""
    requires forall k :: k in keys ==> k.0 == area && k.1 > nowHour - 24
    ensures CountIn(rows, keys) <= CountSince(rows, area, (nowHour - 23) * 3_600_000)
    ensures (forall i :: 0 <= i < |rows| && rows[i].areaId == Some(area) && BucketFor(rows[i].ts) > nowHour - 24
                         ==> (area, BucketFor(rows[i].ts)) in keys)
            ==> CountIn(rows, keys) == CountSince(rows, area, (nowHour - 23) * 3_600_000)
  {
    if rows != [] {
      var n := |rows| - 1;
      CountInRange(rows[..n], keys, area, nowHour);
      BucketAbove(rows[n].ts, nowHour);
      assert forall i :: 0 <= i < n ==> rows[..n][i] == rows[i];
    }
  }

  lemma FigureBelow(s: State, recent: map<CounterKey, int>, nowHour: int, area: string)
    requires Tallied(s) && IsRecent(recent, s.tables.counters, nowHour) && area != ""
    ensures Figure(recent, area) <= CountSince(s.tables.events, area, (nowHour - 23) * 3_600_000)
  {
    var m := OfArea(recent, area);
    var keys := m.Keys;
    forall k | k in m ensures m[k] <= CountKey(s.tables.events, k) {
      assert KeyTallied(s, k);
    }
    SumBelow(m, CountsOn(keys, s.tables.events));
    SumOfCounts(keys, s.tables.events);
    CountInRange(s.tables.events, keys, area, nowHour);
  }

  lemma FigureExact(s: State, recent: map<CounterKey, int>, nowHour: int, area: string)
    requires Tallied(s) && IsRecent(recent, s.tables.counters, nowHour) && area != ""
    requires !s.hist.faulted && !s.phase.Counting?
    ensures Figure(recent, area) == CountSince(s.tables.events, area, (nowHour - 23) * 3_600_000)
  {
    var rows := s.tables.events;
    var m := OfArea(recent, area);
    var keys := m.Keys;
    forall k | k in m ensures m[k] == CountKey(rows, k) {
      assert KeyTallied(s, k);
    }
    assert m == CountsOn(keys, rows);
    SumOfCounts(keys, rows);
    forall i | 0 <= i < |rows| && rows[i].areaId == Some(area) && BucketFor(rows[i].ts) > nowHour - 24
      ensures (area, BucketFor(rows[i].ts)) in keys
    {
      var k := (area, BucketFor(rows[i].ts));
      HitCounts(rows, i, k);
      assert KeyTallied(s, k);
    }
    CountInRange(rows, keys, area, nowHour);
  }

  /**
   The figure read at any step of any run never exceeds the number of the area's stored rows from the
   last 24 hour-buckets on, and equals it when nothing has failed and no batch is being counted,
   in particular whenever the lock is free.
   */
  lemma {:induction false} FigureCountsRows(c: Config, m: Matcher, t0: real, steps: seq<Step>,
                         recent: map<CounterKey, int>, nowHour: int, area: string)
    requires area != ""
    requires IsRecent(recent, After(c, Initial(m, t0), steps).tables.counters, nowHour)
    ensures var s := After(c, Initial(m, t0), steps);
            var direct := CountSince(s.tables.events, area, (nowHour - 23) * 3_600_000);
            && Figure(recent, area) <= direct
            && (!s.hist.faulted && !s.phase.Counting? ==> Figure(recent, area) == direct)
  {
    var s := After(c, Initial(m, t0), steps);
    AlwaysTallied(c, m, t0, steps);
    FigureBelow(s, recent, nowHour, area);
    if !s.hist.faulted && !s.phase.Counting? {
      FigureExact(s, recent, nowHour, area);
    }
  }

  // ---------- the route ----------

  lemma OfAreaWithout(m: map<CounterKey, int>, k: CounterKey, area: string)
    requires k in m
    ensures Figure(m, area) == Figure(m - {k}, area) + if k.0 == area then m[k] else 0
  {
    if k.0 == area {
      SumSplit(OfArea(m, area), k);
      assert OfArea(m, area) - {k} == OfArea(m - {k}, area);
    } else {
      assert OfArea(m, area) == OfArea(m - {k}, area);
    }
  }

  /** `for (aid, _), n in counters.items()`: whatever the order, each area gets its figure. */
  method FoldCounters(counters: map<CounterKey, int>) returns (perArea: map<string, int>)
    ensures forall area :: Get(perArea, area) == Figure(counters, area)
  {
    perArea := map[];
    var left := counters;
    while left != map[]
      invariant forall k :: k in left ==> k in counters && left[k] == counters[k]
      invariant forall area :: Get(perArea, area) + Figure(left, area) == Figure(counters, area)
      decreases |left|
    {
      var k :| k in left;
      SmallerWithout(left, k);
      forall area ensures Figure(left, area) == Figure(left - {k}, area) + if k.0 == area then left[k] else 0 {
        OfAreaWithout(left, k, area);
      }
      perArea := Increment(perArea, k.0, left[k]);
      left := left - {k};
    }
    forall area ensures Get(perArea, area) == Figure(counters, area) {
      assert OfArea(left, area) == map[];
    }
  }

  const ACTIVE_MS := 600_000
  const ENTITY_LIMIT := 1000

  datatype AreaView = AreaView(
    areaId: string, name: Option<string>, floorId: Option<string>, eventsPerHour24h: int,
    classDistribution: map<string, int>, isActive: bool, activeSince: Option<int>, entityCount: nat)

  function CountClass(rows: seq<EntityRow>, cls: string): nat {
    if rows == [] then 0
    else CountClass(rows[..|rows| - 1], cls)
         + if cls != "" && rows[|rows| - 1].deviceClass == Some(cls) then 1 else 0
  }

  lemma {:induction false} CountClassIs(rows: seq<EntityRow>, cls: string, n: nat)
    requires n <= |rows|
    ensures CountClass(rows[..n], cls)
            == Tally(n, i => 0 <= i < |rows| && cls != "" && rows[i].deviceClass == Some(cls))
  {
    if n > 0 {
      CountClassIs(rows, cls, n - 1);
      TallyNext(n - 1, i => 0 <= i < |rows| && cls != "" && rows[i].deviceClass == Some(cls));
      assert rows[..n][..n - 1] == rows[..n - 1];
    }
  }

  /** What the page says of one area, given the entity rows it fetched. */
  ghost predicate Describes(v: AreaView, rows: seq<EntityRow>, laterMs: int) {
    && v.entityCount == |rows|
    && (forall cls :: Get(v.classDistribution, cls) == CountClass(rows, cls))
    && (v.isActive <==> laterMs < 600_000 || exists e :: e in rows && e.lastSeenAt > laterMs - 600_000)
    && (v.activeSince.Some? <==> v.isActive)
    && (v.isActive ==> v.activeSince.value >= 0
                       && (forall e :: e in rows ==> e.lastSeenAt <= v.activeSince.value)
                       && (v.activeSince.value == 0 || exists e :: e in rows && e.lastSeenAt == v.activeSince.value))
  }

  method ViewArea(r: AreaRow, rows: seq<EntityRow>, perArea: map<string, int>, laterMs: int) returns (v: AreaView)
    ensures v.areaId == r.areaId && v.name == r.name && v.floorId == r.floorId
    ensures v.eventsPerHour24h == Get(perArea, r.areaId)
    ensures Describes(v, rows, laterMs)
  {
    var dist: map<string, int> := map[];
    var lastSeen := 0;
    for i := 0 to |rows|
      invariant forall cls :: Get(dist, cls) == CountClass(rows[..i], cls)
      invariant lastSeen >= 0 && forall j :: 0 <= j < i ==> rows[j].lastSeenAt <= lastSeen
      invariant lastSeen == 0 || exists j :: 0 <= j < i && rows[j].lastSeenAt == lastSeen
    {
      var e := rows[i];
      assert rows[..i + 1][..i] == rows[..i];
      if Truthy(e.deviceClass) {
        dist := Increment(dist, e.deviceClass.value, 1);
      }
      if lastSeen < e.lastSeenAt {
        lastSeen := e.lastSeenAt;
      }
    }
    assert rows[..|rows|] == rows;
    var active := lastSeen > laterMs - ACTIVE_MS;
    v := AreaView(r.areaId, r.name, r.floorId, Get(perArea, r.areaId), dist, active,
                  if active then Some(lastSeen) else None, |rows|);
  }

  /** The entity rows of an area that the route looks at: all of them, or the limit's worth. */
  ghost predicate Fetched(entities: map<string, EntityRow>, area: string, rows: seq<EntityRow>) {
    && (forall i, j :: 0 <= i < j < |rows| ==> rows[i].entityId != rows[j].entityId)
    && (forall r :: r in rows ==> r.entityId in entities && entities[r.entityId] == r && r.areaId == Some(area))
    && |rows| <= 1000
    && (|rows| < 1000 ==>
          forall id :: id in entities && entities[id].areaId == Some(area) ==> entities[id] in rows)
  }

  method FetchArea(dao: StoreDAO, area: string) returns (rows: seq<EntityRow>)
    requires WellKeyed(dao.entities)
    ensures Fetched(dao.entities, area, rows)
  {
    rows := dao.ListEntities(Some(area), false, None, ENTITY_LIMIT);
  }

  ghost predicate Shows(v: AreaView, dao: StoreDAO, recent: map<CounterKey, int>,
                        fetched: map<string, seq<EntityRow>>, laterMs: int)
    reads dao
  {
    && v.areaId in dao.areas && v.name == dao.areas[v.areaId].name && v.floorId == dao.areas[v.areaId].floorId
    && v.eventsPerHour24h == Figure(recent, v.areaId)
    && v.areaId in fetched && Fetched(dao.entities, v.areaId, fetched[v.areaId])
    && Describes(v, fetched[v.areaId], laterMs)
  }

  /** The route on a store that stands still: each area once, with its figure and its entity digest. */
  method ListAreas(dao: StoreDAO, nowMs: int, laterMs: int)
    returns (views: seq<AreaView>, ghost recent: map<CounterKey, int>, ghost fetched: map<string, seq<EntityRow>>)
    requires WellKeyed(dao.entities)
    requires forall id :: id in dao.areas ==> dao.areas[id].areaId == id
    ensures IsRecent(recent, dao.counters, BucketFor(nowMs))
    ensures |views| == |dao.areas|
    ensures forall i, j :: 0 <= i < j < |views| ==> views[i].areaId != views[j].areaId
    ensures forall i :: 0 <= i < |views| ==> Shows(views[i], dao, recent, fetched, laterMs)
  {
    var counters := dao.GetCounters24h(BucketFor(nowMs));
    recent, fetched := counters, map[];
    var perArea := FoldCounters(counters);
    views := [];
    var left := dao.areas.Keys;
    while left != {}
      invariant left <= dao.areas.Keys
      invariant |views| + |left| == |dao.areas|
      invariant forall i, j :: 0 <= i < j < |views| ==> views[i].areaId != views[j].areaId
      invariant forall i :: 0 <= i < |views| ==>
                  views[i].areaId !in left && Shows(views[i], dao, recent, fetched, laterMs)
      decreases |left|
    {
      var id :| id in left;
      var rows := FetchArea(dao, id);
      var v := ViewArea(dao.areas[id], rows, perArea, laterMs);
      views := views + [v];
      fetched := fetched[id := rows];
      left := left - {id};
    }
  }
}
