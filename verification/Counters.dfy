/** Hour-bucket arithmetic (ingest/counters.py). */
module Counters {

  const HOUR_MS := 3_600_000

  /** Python's floor division; the divisor is positive, so it is Dafny's `/`. */
  function BucketFor(ts: int): int {
    ts / HOUR_MS
  }

  /** A bucket is exactly one half-open hour, for negative timestamps too. */
  lemma BucketIsHour(ts: int, h: int)
    ensures BucketFor(ts) == h <==> h * 3_600_000 <= ts < (h + 1) * 3_600_000
  {
  }

  /** The filter "bucket above now - 24" is a cut at a whole hour. */
  lemma BucketAbove(ts: int, nowHour: int)
    ensures BucketFor(ts) > nowHour - 24 <==> ts >= (nowHour - 23) * 3_600_000
  {
  }
}
