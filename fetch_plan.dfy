/** Fetching price history from the exchange: a time range (in epoch
    milliseconds) is split into consecutive queries of at most a fixed length,
    each response is reversed (oldest first) and appended to an accumulator
    that lives as long as the module, and the accumulated rows are mapped to
    documents by position. The HTTP request is the `fetch` parameter. */
module FetchPlan {
  import opened PriceData

  /** The exchange's candle endpoint for one query range. */
  type Fetch = (int, int) -> seq<Row>

  /** A candle row: six numbers, the first an integral epoch-second time. */
  predicate IsCandle(r: Row)
  {
    |r| == 6 && r[0] == r[0].Floor as real
  }

  predicate AllCandles(rows: seq<Row>)
  {
    forall k :: 0 <= k < |rows| ==> IsCandle(rows[k])
  }

  /** The document of a row: time, low, high, open, close, volume by position. */
  function ToDocument(r: Row): (d: PricePoint)
    requires IsCandle(r)
    ensures d.time as real == r[0]
  {
    PricePoint(r[0].Floor, r[1], r[2], r[3], r[4], r[5])
  }

  /** The loop building `documents`: one document per row, in order, each
      field taken from its position in the row. */
  method ToDocuments(rows: seq<Row>) returns (documents: seq<PricePoint>)
    requires AllCandles(rows)
    ensures |documents| == |rows|
    ensures forall k :: 0 <= k < |rows| ==> documents[k] == ToDocument(rows[k])
    ensures forall k :: 0 <= k < |rows| ==>
      documents[k].time as real == rows[k][0] && documents[k].low == rows[k][1] &&
      documents[k].high == rows[k][2] && documents[k].open == rows[k][3] &&
      documents[k].close == rows[k][4] && documents[k].volume == rows[k][5]
  {
    documents := [];
    for i := 0 to |rows|
      invariant |documents| == i
      invariant forall k :: 0 <= k < i ==> documents[k] == ToDocument(rows[k])
    {
      var doc := ToDocument(rows[i]);
      documents := documents + [doc];
    }
  }

  /** The query ranges issued from `current`: one while current <= end, each
      [current, min(current + inc, end)], the next starting at current + inc. */
  function QueryRanges(current: int, end: int, inc: int): seq<(int, int)>
    requires inc > 0
    decreases if current > end then 0 else end - current + 1
  {
    if current > end then []
    else [(current, if current + inc > end then end else current + inc)] + QueryRanges(current + inc, end, inc)
  }

  /** floor((end - start) / inc) + 1 queries when start <= end, else none; query
      k starts at start + k*inc and ends at the smaller of its start + inc and
      `end`; consecutive ranges abut; the first starts at `start` and the last
      ends at `end`. */
  lemma {:induction false} QueryRangesShape(start: int, end: int, inc: int)
    requires inc > 0
    ensures var q := QueryRanges(start, end, inc);
            |q| == (if start <= end then (end - start) / inc + 1 else 0) &&
            (forall k :: 0 <= k < |q| ==>
               q[k].0 == start + inc * k && q[k].0 <= q[k].1 <= end &&
               q[k].1 == (if q[k].0 + inc > end then end else q[k].0 + inc)) &&
            (forall k :: 0 <= k < |q| - 1 ==> q[k].1 == q[k + 1].0) &&
            (|q| > 0 ==> q[0].0 == start && q[|q| - 1].1 == end)
    decreases if start > end then 0 else end - start + 1
  {
    if start <= end {
      var q := QueryRanges(start, end, inc);
      var rest := QueryRanges(start + inc, end, inc);
      QueryRangesShape(start + inc, end, inc);
      assert q == [q[0]] + rest;
      DivisionStep(end - start, inc);
      forall k | 0 < k < |q| ensures q[k].0 == start + inc * k {
        assert q[k] == rest[k - 1];
      }
    }
  }

  lemma DivisionStep(m: int, inc: int)
    requires m >= 0 && inc > 0
    ensures m - inc < 0 ==> m / inc == 0
    ensures m - inc >= 0 ==> (m - inc) / inc + 1 == m / inc
  {
    if m - inc >= 0 {
      var q := (m - inc) / inc;
      var r := (m - inc) % inc;
      assert m == (q + 1) * inc + r;
      DivisionUnique(m, inc, q + 1, r);
    } else {
      DivisionUnique(m, inc, 0, m);
    }
  }

  /** m = a*inc + r with 0 <= r < inc determines the quotient. */
  lemma DivisionUnique(m: int, inc: int, a: int, r: int)
    requires inc > 0 && 0 <= r < inc && m == a * inc + r
    ensures m / inc == a
  {
    var a' := m / inc;
    var r' := m % inc;
    assert (a' - a) * inc == r - r';
    if a' > a {
      AtLeastOnce(a' - a, inc);
    } else if a' < a {
      AtLeastOnce(a - a', inc);
    }
  }

  lemma {:induction false} AtLeastOnce(d: int, inc: int)
    requires d >= 1 && inc > 0
    ensures d * inc >= inc
    decreases d
  {
    if d > 1 {
      AtLeastOnce(d - 1, inc);
      assert d * inc == (d - 1) * inc + inc;
    }
  }

  /** Some range of `q` contains the instant `x`. */
  predicate Covers(q: seq<(int, int)>, x: int)
  {
    exists k :: 0 <= k < |q| && q[k].0 <= x <= q[k].1
  }

  /** Every instant of [start, end] lies in some query range, and no range
      reaches outside [start, end]: together the queries cover exactly the
      range. */
  lemma {:induction false} QueryRangesCover(start: int, end: int, inc: int, x: int)
    requires inc > 0
    ensures Covers(QueryRanges(start, end, inc), x) <==> start <= x <= end
    decreases if start > end then 0 else end - start + 1
  {
    var q := QueryRanges(start, end, inc);
    if start <= end {
      var rest := QueryRanges(start + inc, end, inc);
      QueryRangesCover(start + inc, end, inc, x);
      assert q == [(start, if start + inc > end then end else start + inc)] + rest;
      if start <= x <= end {
        if x > q[0].1 {
          var k :| 0 <= k < |rest| && rest[k].0 <= x <= rest[k].1;
          assert q[k + 1] == rest[k];
        } else {
          assert q[0].0 <= x <= q[0].1;
        }
      }
    }
  }

  /** The rows accumulated from the responses to `ranges`, each reversed. */
  function Accumulated(ranges: seq<(int, int)>, fetch: Fetch): seq<Row>
  {
    if ranges == [] then [] else Reversed(fetch(ranges[0].0, ranges[0].1)) + Accumulated(ranges[1..], fetch)
  }

  lemma {:induction false} AccumulatedCandles(ranges: seq<(int, int)>, fetch: Fetch)
    requires forall a, b :: AllCandles(fetch(a, b))
    ensures AllCandles(Accumulated(ranges, fetch))
  {
    if ranges != [] {
      AccumulatedCandles(ranges[1..], fetch);
      var first := fetch(ranges[0].0, ranges[0].1);
      assert AllCandles(first);
      assert AllCandles(Reversed(first)) by {
        forall k | 0 <= k < |first| ensures IsCandle(Reversed(first)[k]) {
          assert Reversed(first)[k] == first[|first| - 1 - k];
        }
      }
    }
  }

  /** The module-level `priceHistory` array of a fetching script. */
  class PriceHistoryAccumulator {
    var priceHistory: seq<Row>

    constructor ()
      ensures priceHistory == []
    {
      priceHistory := [];
    }

    /** A response callback: reverse the rows so that older data is first and
        concatenate them after what is already there. */
    method AppendResponse(json: seq<Row>)
      modifies this
      ensures priceHistory == old(priceHistory) + Reversed(json)
    {
      priceHistory := priceHistory + Reversed(json);
    }

    /** `addToPriceHistory`: query [current, min(current + inc, end)] while
        current <= end, appending each response, then continue from
        current + inc; when done the caller's continuation runs. */
    method AddToPriceHistory(current: int, end: int, incrementMs: int, fetch: Fetch)
      requires incrementMs > 0
      modifies this
      ensures priceHistory == old(priceHistory) + Accumulated(QueryRanges(current, end, incrementMs), fetch)
      decreases if current > end then 0 else end - current + 1
    {
      var queryStartMs := current;
      var queryEndMs := current + incrementMs;
      if queryStartMs > end {
        return;
      }
      if queryEndMs > end {
        queryEndMs := end;
      }
      var json := fetch(queryStartMs, queryEndMs);
      ghost var ranges := QueryRanges(current, end, incrementMs);
      assert ranges == [(queryStartMs, queryEndMs)] + QueryRanges(current + incrementMs, end, incrementMs);
      assert ranges[1..] == QueryRanges(current + incrementMs, end, incrementMs);
      assert Accumulated(ranges, fetch) == Reversed(json) + Accumulated(ranges[1..], fetch);
      AppendResponse(json);
      var nextCurrent := current + incrementMs;
      AddToPriceHistory(nextCurrent, end, incrementMs, fetch);
    }
  }
}
