/** The incremental update: resume one hour after the newest stored document
    (or from July 1, 2016 when nothing is stored) and fetch up to "now", which
    is a parameter here. */
module InsertNewPriceHistory {
  import opened PriceData
  import opened FetchPlan
  import InsertPriceHistory

  /** July 1, 2016, 00:00:00 GMT in epoch milliseconds. */
  const DefaultStartMs: int := 1467331200000
  const HourMs: int := 3600000

  /** The start of the fetch range in milliseconds: only the last stored
      document is consulted, its time being in seconds. */
  function StartDate(stored: seq<PricePoint>): int
  {
    if |stored| == 0 then DefaultStartMs else stored[|stored| - 1].time * 1000 + HourMs
  }

  /** The last stored document is the newest one (later documents may repeat
      earlier ones). */
  predicate LastIsNewest(stored: seq<PricePoint>)
  {
    forall k :: 0 <= k < |stored| ==> stored[k].time <= stored[|stored| - 1].time
  }

  /** With nothing stored the range starts on July 1, 2016; otherwise it
      starts at the instant of the hourly candle after the last one, and when
      the last document is the newest that instant is after every stored
      document, so no stored hour is fetched again. */
  lemma StartAfterStored(stored: seq<PricePoint>)
    requires LastIsNewest(stored)
    ensures |stored| == 0 ==> StartDate(stored) == DefaultStartMs
    ensures |stored| > 0 ==> StartDate(stored) == (stored[|stored| - 1].time + 3600) * 1000
    ensures forall k :: 0 <= k < |stored| ==> stored[k].time * 1000 + HourMs <= StartDate(stored)
  {
  }

  /** The hourly service runs in one process, so the accumulator is never
      cleared: after a first run stored the ascending rows `r1`, the next run
      inserts `r1` again followed by the new rows `r2`. The store is then no
      longer ascending, but its last document is still the newest. */
  lemma {:induction false} ReinsertedStoreLastIsNewest(r1: seq<PricePoint>, r2: seq<PricePoint>)
    requires SortedByTime(r1 + r2)
    ensures LastIsNewest(r1 + (r1 + r2))
    ensures |r1| > 0 ==> !SortedByTime(r1 + (r1 + r2))
  {
    var s := r1 + (r1 + r2);
    var b := r1 + r2;
    if |b| > 0 {
      assert s[|s| - 1] == b[|b| - 1];
      forall k | 0 <= k < |s| ensures s[k].time <= s[|s| - 1].time {
        if k < |r1| {
          assert s[k] == b[k];
        } else {
          assert s[k] == b[k - |r1|];
        }
      }
    }
    if |r1| > 0 {
      assert s[0] == s[|r1|];
    }
  }

  /** `run`: fetch [StartDate(stored), nowMs] and save what was gathered. */
  method Run(acc: PriceHistoryAccumulator, stored: seq<PricePoint>, nowMs: int, fetch: Fetch)
    returns (inserted: Option<seq<PricePoint>>)
    requires AllCandles(acc.priceHistory)
    requires forall a, b :: AllCandles(fetch(a, b))
    modifies acc
    ensures acc.priceHistory == old(acc.priceHistory) + Accumulated(QueryRanges(StartDate(stored), nowMs, InsertPriceHistory.IncrementMs), fetch)
    ensures AllCandles(acc.priceHistory)
    ensures inserted.Some? <==> |acc.priceHistory| > 0
    ensures inserted.Some? ==> |inserted.value| == |acc.priceHistory|
    ensures inserted.Some? ==> forall k :: 0 <= k < |acc.priceHistory| ==> inserted.value[k] == ToDocument(acc.priceHistory[k])
  {
    var startDate: int;
    if |stored| == 0 {
      startDate := DefaultStartMs;
    } else {
      var latestPriceHistory := stored[|stored| - 1].time;
      startDate := latestPriceHistory * 1000 + HourMs;
    }
    inserted := InsertPriceHistory.Run(acc, startDate, nowMs, fetch);
  }
}
