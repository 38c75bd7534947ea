/** The one-off hourly backfill from July 1, 2016 to July 15, 2017 in five-day
    queries; unlike the reusable run, its save step inserts the documents
    without checking that there are any. */
module BackfillPriceHistory {
  import opened PriceData
  import opened FetchPlan

  /** July 1, 2016 00:00:00 GMT and July 15, 2017 00:00:00 GMT. */
  const StartMs: int := 1467331200000
  const EndMs: int := 1500076800000
  /** Five days in milliseconds. */
  const IncrementMs: int := 432000000

  /** The fixed range needs 76 queries: 75 of five days each, then a last one
      of four days ending exactly on July 15, 2017. */
  lemma FixedRangePlan()
    ensures var q := QueryRanges(StartMs, EndMs, IncrementMs);
            |q| == 76 &&
            (forall k :: 0 <= k < 75 ==> q[k].1 - q[k].0 == IncrementMs) &&
            q[75] == (1499731200000, EndMs) && q[75].1 - q[75].0 == 4 * 86400000
  {
    QueryRangesShape(StartMs, EndMs, IncrementMs);
    var q := QueryRanges(StartMs, EndMs, IncrementMs);
    assert |q| == 76;
    assert q[75].0 == StartMs + IncrementMs * 75;
  }

  /** The script: fetch the fixed range, then insert one document per
      accumulated row (possibly none). */
  method Run(acc: PriceHistoryAccumulator, fetch: Fetch) returns (documents: seq<PricePoint>)
    requires AllCandles(acc.priceHistory)
    requires forall a, b :: AllCandles(fetch(a, b))
    modifies acc
    ensures acc.priceHistory == old(acc.priceHistory) + Accumulated(QueryRanges(StartMs, EndMs, IncrementMs), fetch)
    ensures AllCandles(acc.priceHistory)
    ensures |documents| == |acc.priceHistory|
    ensures forall k :: 0 <= k < |acc.priceHistory| ==> documents[k] == ToDocument(acc.priceHistory[k])
  {
    var before := acc.priceHistory;
    acc.AddToPriceHistory(StartMs, EndMs, IncrementMs, fetch);
    var fetched := Accumulated(QueryRanges(StartMs, EndMs, IncrementMs), fetch);
    AccumulatedCandles(QueryRanges(StartMs, EndMs, IncrementMs), fetch);
    assert AllCandles(acc.priceHistory) by {
      forall k | 0 <= k < |acc.priceHistory| ensures IsCandle(acc.priceHistory[k]) {
        if k < |before| {
          assert acc.priceHistory[k] == before[k];
        } else {
          assert acc.priceHistory[k] == fetched[k - |before|];
        }
      }
    }
    documents := ToDocuments(acc.priceHistory);
  }
}
