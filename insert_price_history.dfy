/** The hourly fetch-and-store run: the range is fetched in five-day queries
    into the module-level accumulator, then every accumulated row becomes a
    document and the documents are inserted only when there is at least one. */
module InsertPriceHistory {
  import opened PriceData
  import opened FetchPlan

  /** Five days in milliseconds. */
  const IncrementMs: int := 432000000

  /** `savePriceHistory`: one document per accumulated row, in order; the
      insertion (and the caller's continuation) happens only when there is at
      least one document, otherwise nothing is inserted. */
  method SavePriceHistory(priceHistory: seq<Row>) returns (inserted: Option<seq<PricePoint>>)
    requires AllCandles(priceHistory)
    ensures inserted.Some? <==> |priceHistory| > 0
    ensures inserted.Some? ==> |inserted.value| == |priceHistory|
    ensures inserted.Some? ==> forall k :: 0 <= k < |priceHistory| ==> inserted.value[k] == ToDocument(priceHistory[k])
  {
    var documents := ToDocuments(priceHistory);
    if |documents| > 0 {
      return Some(documents);
    }
    return None;
  }

  /** `run`: fetch [startMs, endMs] into the accumulator, then save. The
      accumulator is never cleared, so rows gathered by an earlier run in the
      same process come first and are inserted again. */
  method Run(acc: PriceHistoryAccumulator, startMs: int, endMs: int, fetch: Fetch)
    returns (inserted: Option<seq<PricePoint>>)
    requires AllCandles(acc.priceHistory)
    requires forall a, b :: AllCandles(fetch(a, b))
    modifies acc
    ensures acc.priceHistory == old(acc.priceHistory) + Accumulated(QueryRanges(startMs, endMs, IncrementMs), fetch)
    ensures AllCandles(acc.priceHistory)
    ensures inserted.Some? <==> |acc.priceHistory| > 0
    ensures inserted.Some? ==> |inserted.value| == |acc.priceHistory|
    ensures inserted.Some? ==> forall k :: 0 <= k < |acc.priceHistory| ==> inserted.value[k] == ToDocument(acc.priceHistory[k])
    ensures inserted.Some? ==> forall k :: 0 <= k < |old(acc.priceHistory)| ==> inserted.value[k] == ToDocument(old(acc.priceHistory)[k])
  {
    var before := acc.priceHistory;
    acc.AddToPriceHistory(startMs, endMs, IncrementMs, fetch);
    var fetched := Accumulated(QueryRanges(startMs, endMs, IncrementMs), fetch);
    AccumulatedCandles(QueryRanges(startMs, endMs, IncrementMs), fetch);
    assert AllCandles(acc.priceHistory) by {
      forall k | 0 <= k < |acc.priceHistory| ensures IsCandle(acc.priceHistory[k]) {
        if k < |before| {
          assert acc.priceHistory[k] == before[k];
        } else {
          assert acc.priceHistory[k] == fetched[k - |before|];
        }
      }
    }
    inserted := SavePriceHistory(acc.priceHistory);
  }
}
