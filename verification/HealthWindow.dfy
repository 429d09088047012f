/** The rolling one-hour event rate (health/metrics.py). */
module HealthWindow {
  import opened Prelude

  const WINDOW_MS := 3_600_000

  /** How many of the timestamps are at or after the cut. */
  function CountFrom(ts: seq<int>, cut: int): nat {
    if ts == [] then 0 else CountFrom(ts[..|ts| - 1], cut) + if ts[|ts| - 1] >= cut then 1 else 0
  }

  lemma {:induction false} CountFromIs(ts: seq<int>, cut: int, n: nat)
    requires n <= |ts|
    ensures CountFrom(ts[..n], cut)
            == Tally(n, i => 0 <= i < |ts| && ts[i] >= cut)
  {
    if n > 0 {
      CountFromIs(ts, cut, n - 1);
      TallyNext(n - 1, i => 0 <= i < |ts| && ts[i] >= cut);
      assert ts[..n][..n - 1] == ts[..n - 1];
    }
  }

  ghost predicate Sorted(ts: seq<int>) {
    forall i, j :: 0 <= i < j < |ts| ==> ts[i] <= ts[j]
  }

  lemma {:induction false} CountFromConcat(a: seq<int>, b: seq<int>, cut: int)
    ensures CountFrom(a + b, cut) == CountFrom(a, cut) + CountFrom(b, cut)
  {
    if b == [] {
      assert a + b == a;
    } else {
      assert (a + b)[..|a + b| - 1] == a + b[..|b| - 1];
      CountFromConcat(a, b[..|b| - 1], cut);
    }
  }

  lemma {:induction false} CountFromUniform(ts: seq<int>, cut: int)
    ensures (forall i :: 0 <= i < |ts| ==> ts[i] < cut) ==> CountFrom(ts, cut) == 0
    ensures (forall i :: 0 <= i < |ts| ==> ts[i] >= cut) ==> CountFrom(ts, cut) == |ts|
    ensures CountFrom(ts, cut) <= |ts|
  {
    if ts != [] {
      CountFromUniform(ts[..|ts| - 1], cut);
    }
  }

  /** A window that is a suffix of history, with everything before it below the cut. */
  lemma SuffixCounts(history: seq<int>, k: nat, cut: int)
    requires k <= |history| && forall i :: 0 <= i < k ==> history[i] < cut
    ensures CountFrom(history, cut) <= |history| - k
    ensures CountFrom(history, cut) == |history| - k <==> forall i :: k <= i < |history| ==> history[i] >= cut
  {
    assert history == history[..k] + history[k..];
    CountFromConcat(history[..k], history[k..], cut);
    CountFromUniform(history[..k], cut);
    CountFromUniform(history[k..], cut);
    if CountFrom(history[k..], cut) == |history| - k {
      AllCounted(history[k..], cut);
      assert forall i :: k <= i < |history| ==> history[i] == history[k..][i - k];
    }
  }

  lemma {:induction false} AllCounted(ts: seq<int>, cut: int)
    requires CountFrom(ts, cut) == |ts|
    ensures forall i :: 0 <= i < |ts| ==> ts[i] >= cut
  {
    if ts != [] {
      CountFromUniform(ts[..|ts| - 1], cut);
      AllCounted(ts[..|ts| - 1], cut);
    }
  }

  /** For sorted history a pruned window is exact. */
  lemma SortedWindowExact(history: seq<int>, k: nat, cut: int)
    requires k <= |history| && Sorted(history)
    requires forall i :: 0 <= i < k ==> history[i] < cut
    requires k < |history| ==> history[k] >= cut
    ensures CountFrom(history, cut) == |history| - k
  {
    SuffixCounts(history, k, cut);
    forall i | k <= i < |history| ensures history[i] >= cut {
      assert history[k] <= history[i];
    }
  }

  /** The deque is the end of history, and what it has let go of lies below the cut. */
  ghost predicate Window(recent: seq<int>, history: seq<int>, cut: int) {
    && |recent| <= |history| && recent == history[|history| - |recent|..]
    && forall i :: 0 <= i < |history| - |recent| ==> history[i] < cut
  }

  lemma PopKeepsWindow(recent: seq<int>, history: seq<int>, cut: int)
    requires Window(recent, history, cut) && recent != [] && recent[0] < cut
    ensures Window(recent[1..], history, cut)
  {
    var k := |history| - |recent|;
    assert history[k] == recent[0];
    assert recent[1..] == history[k + 1..];
  }

  lemma AppendKeepsWindow(recent: seq<int>, history: seq<int>, cut: int, raised: int, t: int)
    requires Window(recent, history, cut) && cut <= raised
    ensures Window(recent + [t], history + [t], raised)
  {
    var k := |history| - |recent|;
    assert (history + [t])[k..] == history[k..] + [t];
  }

  /** No time in the sequence is after the last. */
  ghost predicate Upto(ts: seq<int>, last: int) {
    forall i :: 0 <= i < |ts| ==> ts[i] <= last
  }

  class HealthMetrics {
    const startMs: int
    var recent: seq<int>
    ghost var history: seq<int>       // every timestamp recorded
    ghost var highest: Option<int>    // the highest cutoff used so far
    ghost var steady: bool            // no call has come with an earlier time than one before it

    /**
     For arbitrary clocks the deque is a suffix of history holding every timestamp at or above the
     highest cutoff ever used; while the clock is steady, history is sorted and below the last time seen.
     */
    ghost predicate Valid()
      reads this
    {
      match highest
      case None => recent == [] && history == []
      case Some(cut) =>
        && Window(recent, history, cut)
        && (steady ==> Sorted(history) && Upto(history, cut + WINDOW_MS))
    }

    /** A call at this time keeps the clock steady. */
    ghost predicate Follows(ms: int)
      reads this
    {
      steady && (highest.Some? ==> highest.value <= ms - WINDOW_MS)
    }

    ghost function Raised(cutoff: int): int
      reads this
    {
      if highest.Some? && highest.value > cutoff then highest.value else cutoff
    }

    constructor (installStartMs: int)
      ensures Valid() && history == [] && highest.None? && steady && startMs == installStartMs
    {
      startMs := installStartMs;
      recent, history, highest, steady := [], [], None, true;
    }

    /** The popping loop shared by `record_event` and `snapshot`. */
    method Prune(cutoff: int, ghost cut: int)
      requires cutoff <= cut && Window(recent, history, cut)
      modifies this`recent
      ensures Window(recent, history, cut)
      ensures recent == [] || recent[0] >= cutoff
      ensures |recent| <= |old(recent)| && recent == old(recent)[|old(recent)| - |recent|..]
      ensures forall i :: 0 <= i < |old(recent)| - |recent| ==> old(recent)[i] < cutoff
    {
      while recent != [] && recent[0] < cutoff
        invariant Window(recent, history, cut) && Window(recent, old(recent), cutoff)
        decreases |recent|
      {
        PopKeepsWindow(recent, history, cut);
        PopKeepsWindow(recent, old(recent), cutoff);
        recent := recent[1..];
      }
    }

    method RecordEvent(tsMs: int)
      requires Valid()
      modifies this
      ensures Valid() && history == old(history) + [tsMs]
      ensures highest == Some(old(Raised(tsMs - 3_600_000)))
      ensures steady == old(Follows(tsMs))
    {
      ghost var raised := Raised(tsMs - WINDOW_MS);
      AppendKeepsWindow(recent, history, if highest.Some? then highest.value else raised, raised, tsMs);
      steady := Follows(tsMs);
      highest := Some(raised);
      history := history + [tsMs];
      recent := recent + [tsMs];
      Prune(tsMs - WINDOW_MS, raised);
    }

    /** `events_per_hour` and `uptime_seconds` of the snapshot. */
    method Snapshot(nowMs: int) returns (eventsPerHour: nat, uptimeSeconds: nat)
      requires Valid()
      modifies this
      ensures Valid() && history == old(history)
      ensures highest == Some(old(Raised(nowMs - 3_600_000))) && steady == old(Follows(nowMs))
      // on any clock: never fewer than the events recorded at or above the highest cutoff so far
      ensures eventsPerHour >= CountFrom(history, highest.value)
      // on a clock that has never run backwards: exactly the events recorded in the last hour
      ensures steady ==> eventsPerHour == CountFrom(history, nowMs - 3_600_000)
      ensures uptimeSeconds == if nowMs < startMs then 0 else (nowMs - startMs) / 1000
    {
      ghost var raised := Raised(nowMs - WINDOW_MS);
      steady := Follows(nowMs);
      highest := Some(raised);
      Prune(nowMs - WINDOW_MS, raised);
      eventsPerHour := |recent|;
      uptimeSeconds := if nowMs < startMs then 0 else (nowMs - startMs) / 1000;
      ghost var k := |history| - |recent|;
      SuffixCounts(history, k, raised);
      if steady {
        SortedWindowExact(history, k, raised);
      }
    }
  }
}
