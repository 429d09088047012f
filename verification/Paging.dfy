/** Cursor paging over the events table (store/dao.py), and what the events route makes of it. */
module Paging {
  import opened Prelude
  import opened Store

  predicate SelectedId(events: seq<EventRow>, f: Filter, id: int) {
    1 <= id <= |events| && Selected(events[id - 1], f)
  }

  ghost predicate Descending(d: seq<int>) {
    forall i, j :: 0 <= i < j < |d| ==> d[i] > d[j]
  }

  /** A listing holds exactly the selected ids up to `hi` ... */
  lemma {:induction false} DescIdsHold(events: seq<EventRow>, f: Filter, hi: nat, id: int)
    requires hi <= |events|
    ensures id in DescIds(events, f, hi) <==> id <= hi && SelectedId(events, f, id)
  {
    if hi > 0 {
      DescIdsHold(events, f, hi - 1, id);
      var rest := DescIds(events, f, hi - 1);
      assert id in [hi] + rest <==> id == hi || id in rest;
      assert [] + rest == rest;
    }
  }

  /** ... in strictly descending order. */
  lemma {:induction false} DescIdsDescend(events: seq<EventRow>, f: Filter, hi: nat)
    requires hi <= |events|
    ensures Descending(DescIds(events, f, hi))
  {
    if hi > 0 {
      DescIdsDescend(events, f, hi - 1);
      var rest := DescIds(events, f, hi - 1);
      forall id | id in rest ensures id < hi {
        DescIdsHold(events, f, hi - 1, id);
      }
      forall i, j | 0 <= i < j < |[hi] + rest| ensures ([hi] + rest)[i] > ([hi] + rest)[j] {
        assert rest[j - 1] in rest && ([hi] + rest)[j] == rest[j - 1];
        assert i > 0 ==> ([hi] + rest)[i] == rest[i - 1];
      }
      assert [] + rest == rest;
    }
  }

  lemma DescIdsAre(events: seq<EventRow>, f: Filter, hi: nat)
    requires hi <= |events|
    ensures var d := DescIds(events, f, hi);
            && (forall id :: id in d <==> id <= hi && SelectedId(events, f, id))
            && Descending(d)
  {
    DescIdsDescend(events, f, hi);
    forall id ensures id in DescIds(events, f, hi) <==> id <= hi && SelectedId(events, f, id) {
      DescIdsHold(events, f, hi, id);
    }
  }

  /** Rows inserted later have larger ids and change nothing below. */
  lemma {:induction false} DescIdsStable(events: seq<EventRow>, more: seq<EventRow>, f: Filter, hi: nat)
    requires hi <= |events|
    ensures DescIds(events + more, f, hi) == DescIds(events, f, hi)
  {
    if hi > 0 {
      DescIdsStable(events, more, f, hi - 1);
      assert (events + more)[hi - 1] == events[hi - 1];
    }
  }

  /** What follows an id in a listing is the listing below that id. */
  lemma {:induction false} DescIdsTail(events: seq<EventRow>, f: Filter, hi: nat, k: nat)
    requires hi <= |events| && k < |DescIds(events, f, hi)|
    ensures 1 <= DescIds(events, f, hi)[k] <= hi
    ensures DescIds(events, f, hi)[k + 1..] == DescIds(events, f, DescIds(events, f, hi)[k] - 1)
  {
    var d, rest := DescIds(events, f, hi), DescIds(events, f, hi - 1);
    if Selected(events[hi - 1], f) {
      assert d == [hi] + rest && d[1..] == rest;
      if k > 0 {
        DescIdsTail(events, f, hi - 1, k - 1);
        assert d[k + 1..] == rest[k..];
      }
    } else {
      assert d == rest;
      DescIdsTail(events, f, hi - 1, k);
    }
  }

  /** Only selected rows matter between two bounds. */
  lemma {:induction false} DescIdsGap(events: seq<EventRow>, f: Filter, lo: nat, hi: nat)
    requires lo <= hi <= |events|
    requires forall j :: lo < j <= hi ==> !SelectedId(events, f, j)
    ensures DescIds(events, f, hi) == DescIds(events, f, lo)
  {
    if lo < hi {
      DescIdsGap(events, f, lo, hi - 1);
      assert !SelectedId(events, f, hi);
    }
  }

  lemma PageBounds(events: seq<EventRow>, f: Filter, cursor: Option<int>, limit: int)
    ensures var page := Page(events, f, cursor, limit);
            page != [] ==> 1 <= page[|page| - 1] <= Visible(cursor, |events|)
  {
    var page := Page(events, f, cursor, limit);
    if page != [] {
      assert page[|page| - 1] == DescIds(events, f, Visible(cursor, |events|))[|page| - 1];
      DescIdsHold(events, f, Visible(cursor, |events|), page[|page| - 1]);
    }
  }

  /**
   A page holds selected rows below the cursor, newest first, at most the limit if there is one; a selected
   row below the cursor is left out only by a full page, all of it newer.
   */
  lemma PageIs(events: seq<EventRow>, f: Filter, cursor: Option<int>, limit: int, id: int)
    ensures var page := Page(events, f, cursor, limit);
            && Descending(page) && (limit >= 0 ==> |page| <= limit)
            && (id in page ==> SelectedId(events, f, id) && (cursor.Some? ==> id < cursor.value))
            && (SelectedId(events, f, id) && (cursor.Some? ==> id < cursor.value) && id !in page ==>
                  |page| == limit && forall p :: p in page ==> p > id)
  {
    var vis := Visible(cursor, |events|);
    var d, page := DescIds(events, f, vis), Page(events, f, cursor, limit);
    DescIdsAre(events, f, vis);
    assert page == d[..|page|];
    if id in d && id !in page {
      var k :| 0 <= k < |d| && d[k] == id;
      forall j | 0 <= j < |page| ensures page[j] > id {
        assert page[j] == d[j] && j != k;
      }
    }
    if id in page {
      var j :| 0 <= j < |page| && page[j] == id;
      assert d[j] == id;
    }
  }

  function First(arrivals: seq<seq<EventRow>>): seq<EventRow> {
    if arrivals == [] then [] else arrivals[0]
  }

  function Rest(arrivals: seq<seq<EventRow>>): seq<seq<EventRow>> {
    if arrivals == [] then [] else arrivals[1..]
  }

  /** Page after page from a cursor until one comes back empty, with rows arriving in between. */
  function Walk(events: seq<EventRow>, f: Filter, cursor: Option<int>, limit: int, arrivals: seq<seq<EventRow>>): seq<int>
    decreases Visible(cursor, |events|)
  {
    var page := Page(events, f, cursor, limit);
    if page == [] then []
    else
      PageBounds(events, f, cursor, limit);
      page + Walk(events + First(arrivals), f, Some(page[|page| - 1]), limit, Rest(arrivals))
  }

  lemma {:induction false} WalkFrom(
      events: seq<EventRow>, f: Filter, cursor: Option<int>, limit: int, arrivals: seq<seq<EventRow>>)
    requires limit != 0
    ensures Walk(events, f, cursor, limit, arrivals) == DescIds(events, f, Visible(cursor, |events|))
    decreases Visible(cursor, |events|)
  {
    var d := DescIds(events, f, Visible(cursor, |events|));
    var page := Page(events, f, cursor, limit);
    if page != [] {
      PageBounds(events, f, cursor, limit);
      var last := page[|page| - 1];
      var more := First(arrivals);
      WalkFrom(events + more, f, Some(last), limit, Rest(arrivals));
      DescIdsTail(events, f, Visible(cursor, |events|), |page| - 1);
      DescIdsStable(events, more, f, last - 1);
      assert page == d[..|page|] && d == page + d[|page|..];
    }
  }

  /**
   Paging by event id: the pages together are every selected row present at the first call, each once,
   newest first, whatever is inserted between the calls; and the walk ends.
   */
  lemma PagingIsComplete(events: seq<EventRow>, f: Filter, limit: int, arrivals: seq<seq<EventRow>>)
    requires limit != 0
    ensures var ids := Walk(events, f, None, limit, arrivals);
            && (forall id :: id in ids <==> SelectedId(events, f, id))
            && Descending(ids)
  {
    WalkFrom(events, f, None, limit, arrivals);
    DescIdsAre(events, f, |events|);
  }

  // ---------- the route's cursor ----------

  lemma FirstIsLargest(d: seq<int>, id: int)
    requires Descending(d) && id in d
    ensures d[0] >= id
  {
  }

  /** `next_cursor` in web/routes/events.py: the timestamp, not the id, of a full page's last row. */
  function RouteCursor(events: seq<EventRow>, page: seq<int>, limit: int): Option<int>
    requires forall i :: 0 <= i < |page| ==> 1 <= page[i] <= |events|
  {
    if page != [] && |page| == limit then Some(events[page[|page| - 1] - 1].ts) else None
  }

  /**
   Following the route's cursor gives the true next page if and only if the last row's timestamp, read as
   an id, is not above that row and no selected row lies from it up to that row.
   */
  lemma RouteCursorExactly(events: seq<EventRow>, f: Filter, limit: int, id: int)
    requires limit >= 1 && SelectedId(events, f, id)
    ensures var ts := events[id - 1].ts;
            Page(events, f, Some(ts), limit) == Page(events, f, Some(id), limit)
            <==> ts <= id && forall j :: ts <= j < id ==> !SelectedId(events, f, j)
  {
    var n := |events|;
    var ts := events[id - 1].ts;
    var a, b := Visible(Some(ts), n), Visible(Some(id), n);
    DescIdsAre(events, f, a);
    DescIdsAre(events, f, b);
    var da, db := DescIds(events, f, a), DescIds(events, f, b);
    if ts > id {
      assert id in da;
      FirstIsLargest(da, id);
      var page := Page(events, f, Some(id), limit);
      assert Page(events, f, Some(ts), limit)[0] == da[0] >= id;
      assert page != [] ==> page[0] == db[0] && db[0] in db;
    } else if j :| ts <= j < id && SelectedId(events, f, j) {
      assert j in db;
      FirstIsLargest(db, j);
      var page := Page(events, f, Some(ts), limit);
      assert Page(events, f, Some(id), limit)[0] == db[0] >= j;
      assert page != [] ==> page[0] == da[0] && da[0] in da;
    } else {
      DescIdsGap(events, f, a, b);
    }
  }

  /**
   The route offers a next cursor exactly after a full page, and following it gives the true next page if and
   only if the timestamp of the page's last row, read as an id, is not above that row and no selected row
   lies from it up to that row.
   */
  lemma RouteFollowsExactly(events: seq<EventRow>, f: Filter, cursor: Option<int>, limit: int)
    requires limit >= 1
    ensures var page := Page(events, f, cursor, limit);
            && (forall i :: 0 <= i < |page| ==> 1 <= page[i] <= |events|)
            && (RouteCursor(events, page, limit).Some? <==> |page| == limit)
            && (|page| == limit ==>
                  var last := page[limit - 1];
                  var ts := events[last - 1].ts;
                  Page(events, f, RouteCursor(events, page, limit), limit) == Page(events, f, Some(last), limit)
                  <==> ts <= last && forall j :: ts <= j < last ==> !SelectedId(events, f, j))
  {
    var page := Page(events, f, cursor, limit);
    forall i | 0 <= i < |page| ensures 1 <= page[i] <= |events| && SelectedId(events, f, page[i]) {
      PageIs(events, f, cursor, limit, page[i]);
    }
    if |page| == limit {
      RouteCursorExactly(events, f, limit, page[limit - 1]);
    } else {
      PageIs(events, f, cursor, limit, 0);
    }
  }

  /** With millisecond timestamps above every id, the route serves its first page again and again. */
  lemma RouteServesFirstPageAgain(events: seq<EventRow>, f: Filter, limit: int)
    requires limit >= 1 && |Page(events, f, None, limit)| == limit
    requires forall i :: 0 <= i < |events| ==> events[i].ts > |events|
    ensures var page := Page(events, f, None, limit);
            && (forall i :: 0 <= i < |page| ==> 1 <= page[i] <= |events|)
            && RouteCursor(events, page, limit).Some?
            && Page(events, f, RouteCursor(events, page, limit), limit) == page
  {
    DescIdsAre(events, f, |events|);
    var page := Page(events, f, None, limit);
    var d := DescIds(events, f, |events|);
    assert forall i :: 0 <= i < |page| ==> page[i] == d[i] && d[i] in d;
  }
}
