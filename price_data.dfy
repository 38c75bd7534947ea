/** Shared vocabulary of the price-history code: the stored price document, the
    day arithmetic, the price-change normalisation, the exact-timestamp lookups
    and the seven-day input window that every predictor variant reads. */
module PriceData {

  datatype Option<T> = None | Some(value: T)

  /** One stored price history document (an hourly or daily candle).
      `time` is in epoch seconds. */
  datatype PricePoint = PricePoint(time: int, low: real, high: real, open: real, close: real, volume: real)

  /** A raw candle row of the exchange's response:
      [time, low, high, open, close, volume]. */
  type Row = seq<real>

  /** A training example: the network's inputs and its expected outputs. */
  datatype Example = Example(input: seq<real>, output: seq<real>)

  /** A network trained on the given examples, run on the given inputs (the
      training library is outside the model). */
  type Network = (seq<Example>, seq<real>) -> real

  const SecondsPerDay: int := 86400
  /** Hourly samples per day: the index step between two consecutive days. */
  const SamplesPerDay: int := 24

  /** `addDays(date, n)`: calendar days are taken as 86400 seconds. */
  function AddDays(t: int, n: int): int
  {
    t + SecondsPerDay * n
  }

  lemma AddDaysCompose(t: int, m: int, n: int)
    ensures AddDays(AddDays(t, m), n) == AddDays(t, m + n)
  {
  }

  /** The date utility's own example: two days after 1500336000000 ms is 1500508800000 ms. */
  lemma AddTwoDays()
    ensures AddDays(1500336000, 2) * 1000 == 1500508800000
  {
  }

  /** `generateNormalized(current, previous)`: the price ratio shifted down by one half. */
  function Normalize(current: real, previous: real): (n: real)
    requires previous != 0.0
    ensures (n + 0.5) * previous == current
  {
    current / previous - 0.5
  }

  /** No change in price maps to the midpoint 0.5. */
  lemma NormalizeNoChange(p: real)
    requires p != 0.0
    ensures Normalize(p, p) == 0.5
  {
  }

  /** For a positive previous price, normalisation is strictly increasing in the current price. */
  lemma NormalizeStrictlyIncreasing(c1: real, c2: real, p: real)
    requires p > 0.0 && c1 < c2
    ensures Normalize(c1, p) < Normalize(c2, p)
  {
    assert (Normalize(c1, p) + 0.5) * p < (Normalize(c2, p) + 0.5) * p;
  }

  /** Stored documents in strictly ascending time order. */
  predicate SortedByTime(docs: seq<PricePoint>)
  {
    forall i, j :: 0 <= i < j < |docs| ==> docs[i].time < docs[j].time
  }

  predicate OpensNonZero(docs: seq<PricePoint>)
  {
    forall k :: 0 <= k < |docs| ==> docs[k].open != 0.0
  }

  function Reversed<T>(s: seq<T>): (r: seq<T>)
    ensures |r| == |s|
    ensures forall k :: 0 <= k < |s| ==> r[k] == s[|s| - 1 - k]
  {
    if s == [] then [] else Reversed(s[1..]) + [s[0]]
  }

  /** The greatest index whose document has exactly time `t`, if any. */
  function LastIndexOf(docs: seq<PricePoint>, t: int): (r: Option<nat>)
    ensures r.Some? ==> r.value < |docs| && docs[r.value].time == t
    ensures r.Some? ==> forall j :: r.value < j < |docs| ==> docs[j].time != t
    ensures r.None? ==> forall j :: 0 <= j < |docs| ==> docs[j].time != t
    decreases |docs|
  {
    if |docs| == 0 then None
    else if docs[|docs| - 1].time == t then Some(|docs| - 1)
    else LastIndexOf(docs[..|docs| - 1], t)
  }

  /** The least index whose document has exactly time `t`, if any. */
  function FirstIndexOf(docs: seq<PricePoint>, t: int): (r: Option<nat>)
    ensures r.Some? ==> r.value < |docs| && docs[r.value].time == t
    ensures r.Some? ==> forall j :: 0 <= j < r.value ==> docs[j].time != t
    ensures r.None? ==> forall j :: 0 <= j < |docs| ==> docs[j].time != t
    decreases |docs|
  {
    if |docs| == 0 then None
    else if docs[0].time == t then Some(0)
    else match FirstIndexOf(docs[1..], t)
      case None => None
      case Some(k) => Some(k + 1)
  }

  /** `findIndexOfDateTime`: a backward scan for an exact epoch-second match;
      null (here None) when the timestamp is absent. */
  method FindIndexOfDateTime(docs: seq<PricePoint>, t: int) returns (r: Option<nat>)
    ensures r == LastIndexOf(docs, t)
  {
    var i := |docs| - 1;
    while i >= 0
      invariant -1 <= i < |docs|
      invariant forall j :: i < j < |docs| ==> docs[j].time != t
      decreases i + 1
    {
      if docs[i].time == t {
        return Some(i);
      }
      i := i - 1;
    }
    return None;
  }

  /** The seven inputs of the window starting at index `w`: input j is the change
      from the sample one day (24 samples) before `w + 24*j` to that sample. */
  function DailyInputs(docs: seq<PricePoint>, w: int): (r: seq<real>)
    requires SamplesPerDay <= w && w + 6 * SamplesPerDay < |docs| && OpensNonZero(docs)
    ensures |r| == 7
  {
    seq(7, j requires 0 <= j < 7 =>
      Normalize(docs[w + SamplesPerDay * j].open, docs[w + SamplesPerDay * (j - 1)].open))
  }

  /** The training example of the week starting at index `w`: the seven daily
      inputs and, as output, the change from day 7 to day 8 of the week. */
  function DailyWeek(docs: seq<PricePoint>, w: int): Example
    requires SamplesPerDay <= w && w + 7 * SamplesPerDay < |docs| && OpensNonZero(docs)
  {
    Example(DailyInputs(docs, w),
            [Normalize(docs[w + 7 * SamplesPerDay].open, docs[w + 6 * SamplesPerDay].open)])
  }

  /** One week of a `generateTrainingData` walk: the inner loop over the seven
      days, then the output of the eighth. */
  method BuildWeek(docs: seq<PricePoint>, w: int) returns (week: Example)
    requires SamplesPerDay <= w && w + 7 * SamplesPerDay < |docs| && OpensNonZero(docs)
    ensures week == DailyWeek(docs, w)
  {
    var thisWeekInput: seq<real> := [];
    for j := 0 to 7
      invariant |thisWeekInput| == j
      invariant forall k :: 0 <= k < j ==>
        thisWeekInput[k] == Normalize(docs[w + SamplesPerDay * k].open, docs[w + SamplesPerDay * (k - 1)].open)
    {
      var currentPrice := docs[w + SamplesPerDay * j].open;
      var previousPrice := docs[w + SamplesPerDay * (j - 1)].open;
      thisWeekInput := thisWeekInput + [Normalize(currentPrice, previousPrice)];
    }
    var lastDayPrice := docs[w + 7 * SamplesPerDay].open;
    var secondToLastDayPrice := docs[w + 6 * SamplesPerDay].open;
    var thisWeekOutput := [Normalize(lastDayPrice, secondToLastDayPrice)];
    assert thisWeekInput == DailyInputs(docs, w);
    week := Example(thisWeekInput, thisWeekOutput);
  }

  /** Whether every sample the prediction window at `w` reads exists. */
  predicate WindowReadable(docs: seq<PricePoint>, w: int)
  {
    SamplesPerDay <= w && w + 6 * SamplesPerDay < |docs|
  }

  /** The prediction window read inside a try/catch. A null start index is used
      as 0 by the index arithmetic, so its very first read (index -24) already
      fails; any read outside the array throws and the result is None. */
  function TryWindow(docs: seq<PricePoint>, start: Option<nat>): (r: Option<seq<real>>)
    requires OpensNonZero(docs)
    ensures r.Some? <==> start.Some? && WindowReadable(docs, start.value)
    ensures r.Some? ==> |r.value| == 7
  {
    if start.Some? && WindowReadable(docs, start.value) then Some(DailyInputs(docs, start.value))
    else None
  }

  /** The input-building loop of the prediction step, with the thrown read
      turned into None. */
  method ReadInputs(docs: seq<PricePoint>, start: Option<nat>) returns (r: Option<seq<real>>)
    requires OpensNonZero(docs)
    ensures r == TryWindow(docs, start)
  {
    var base: int := if start.None? then 0 else start.value;
    var inputs: seq<real> := [];
    for i := 0 to 7
      invariant |inputs| == i
      invariant i > 0 ==> SamplesPerDay <= base && base + SamplesPerDay * (i - 1) < |docs|
      invariant forall k :: 0 <= k < i ==>
        inputs[k] == Normalize(docs[base + SamplesPerDay * k].open, docs[base + SamplesPerDay * (k - 1)].open)
    {
      var cur := base + SamplesPerDay * i;
      var prev := base + SamplesPerDay * (i - 1);
      if !(0 <= prev && cur < |docs|) {
        return None;
      }
      inputs := inputs + [Normalize(docs[cur].open, docs[prev].open)];
    }
    assert inputs == DailyInputs(docs, base);
    return Some(inputs);
  }
}
