/** The daily-candle loader: two chained requests (the exchange returns at most
    200 candles per request), each response reversed and appended, then one
    document per accumulated row is inserted. */
module UpdatePriceHistory {
  import opened PriceData
  import opened FetchPlan

  /** The exchange's daily candle endpoint for an ISO start and end. */
  type DailyFetch = (string, string) -> seq<Row>

  const FirstStart: string := "2016-07-01T12:00:00"
  const FirstEnd: string := "2017-01-05T12:00:00"
  const SecondStart: string := "2017-01-06T12:00:00"
  const SecondEnd: string := "2017-11-07T12:00:00"

  /** `addToPriceHistory`: one request, its rows reversed and appended. */
  method AddToPriceHistory(acc: PriceHistoryAccumulator, start: string, end: string, fetch: DailyFetch)
    modifies acc
    ensures acc.priceHistory == old(acc.priceHistory) + Reversed(fetch(start, end))
  {
    var json := fetch(start, end);
    acc.AppendResponse(json);
  }

  /** The script: the first range, then the second, then the documents. */
  method Run(acc: PriceHistoryAccumulator, fetch: DailyFetch) returns (documents: seq<PricePoint>)
    requires AllCandles(acc.priceHistory)
    requires forall a, b :: AllCandles(fetch(a, b))
    modifies acc
    ensures acc.priceHistory == old(acc.priceHistory) + Reversed(fetch(FirstStart, FirstEnd)) + Reversed(fetch(SecondStart, SecondEnd))
    ensures AllCandles(acc.priceHistory)
    ensures |documents| == |acc.priceHistory|
    ensures forall k :: 0 <= k < |acc.priceHistory| ==> documents[k] == ToDocument(acc.priceHistory[k])
  {
    var before := acc.priceHistory;
    AddToPriceHistory(acc, FirstStart, FirstEnd, fetch);
    AddToPriceHistory(acc, SecondStart, SecondEnd, fetch);
    var first := fetch(FirstStart, FirstEnd);
    var second := fetch(SecondStart, SecondEnd);
    assert AllCandles(first) && AllCandles(second);
    assert AllCandles(acc.priceHistory) by {
      forall k | 0 <= k < |acc.priceHistory| ensures IsCandle(acc.priceHistory[k]) {
        if k < |before| {
          assert acc.priceHistory[k] == before[k];
        } else if k < |before| + |first| {
          assert acc.priceHistory[k] == first[|first| - 1 - (k - |before|)];
        } else {
          assert acc.priceHistory[k] == second[|second| - 1 - (k - |before| - |first|)];
        }
      }
    }
    documents := ToDocuments(acc.priceHistory);
  }
}
