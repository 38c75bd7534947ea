/** The training-data generator for a daily price array: the walk runs from
    index len-14 down to 8 in steps of 7. Its inner loop never uses its own
    counter, so all seven inputs of an example are the same close/low ratio. */
module TrainPriceHistoryNN {
  import opened PriceData

  predicate DivisorsNonZero(docs: seq<PricePoint>)
  {
    forall k :: 0 <= k < |docs| ==> docs[k].low != 0.0 && docs[k].open != 0.0
  }

  /** The example of the week at index `i`: seven copies of
      normalize(close, low) of day `i`, and the change from the open of day
      i+6 to the close of day i+7. */
  function Week(docs: seq<PricePoint>, i: int): Example
    requires 0 <= i && i + 7 < |docs| && DivisorsNonZero(docs)
  {
    Example(seq(7, j => Normalize(docs[i].close, docs[i].low)),
            [Normalize(docs[i + 7].close, docs[i + 6].open)])
  }

  /** The walk from index `i` down while i >= 8, newest first. */
  function Weeks(docs: seq<PricePoint>, i: int): seq<Example>
    requires i + 7 < |docs| && DivisorsNonZero(docs)
    decreases i
  {
    if i < 8 then [] else [Week(docs, i)] + Weeks(docs, i - 7)
  }

  lemma {:induction false} WeeksCount(docs: seq<PricePoint>, i: int)
    requires i + 7 < |docs| && DivisorsNonZero(docs)
    ensures |Weeks(docs, i)| == if i < 8 then 0 else (i - 8) / 7 + 1
    decreases i
  {
    if i >= 8 {
      WeeksCount(docs, i - 7);
      var m := i - 8;
      assert m - 7 < 0 ==> m / 7 == 0;
      assert m - 7 >= 0 ==> (m - 7) / 7 + 1 == m / 7;
    }
  }

  lemma {:induction false} WeeksAt(docs: seq<PricePoint>, i: int, k: nat)
    requires i + 7 < |docs| && DivisorsNonZero(docs)
    requires k < |Weeks(docs, i)|
    ensures 8 <= i - 7 * k
    ensures Weeks(docs, i)[k] == Week(docs, i - 7 * k)
    decreases i
  {
    if k > 0 {
      WeeksAt(docs, i - 7, k - 1);
    }
  }

  /** From a daily array of length `len`: floor((len - 22) / 7) + 1 examples
      when len >= 22, else none; example k reads only days i, i+6 and i+7 for
      i = len - 14 - 7k, all inside [8, len - 7]; its seven inputs are equal and
      its single output is normalize(close of day i+7, open of day i+6). */
  lemma TrainingDataShape(docs: seq<PricePoint>)
    requires DivisorsNonZero(docs)
    ensures var weeks := Weeks(docs, |docs| - 14);
            |weeks| == (if |docs| < 22 then 0 else (|docs| - 22) / 7 + 1) &&
            forall k :: 0 <= k < |weeks| ==>
              var i := |docs| - 14 - 7 * k;
              8 <= i && i + 7 <= |docs| - 7 &&
              |weeks[k].input| == 7 &&
              (forall j :: 0 <= j < 7 ==> weeks[k].input[j] == Normalize(docs[i].close, docs[i].low)) &&
              weeks[k].output == [Normalize(docs[i + 7].close, docs[i + 6].open)]
  {
    var weeks := Weeks(docs, |docs| - 14);
    WeeksCount(docs, |docs| - 14);
    forall k | 0 <= k < |weeks|
      ensures 8 <= |docs| - 14 - 7 * k
      ensures weeks[k] == Week(docs, |docs| - 14 - 7 * k)
    {
      WeeksAt(docs, |docs| - 14, k);
    }
  }

  /** `generateTrainingData`: the nested loops pushing one example per week. */
  method GenerateTrainingData(docs: seq<PricePoint>) returns (trainingData: seq<Example>)
    requires DivisorsNonZero(docs)
    ensures trainingData == Weeks(docs, |docs| - 14)
  {
    trainingData := [];
    var i := |docs| - 1 - 13;
    while i >= 8
      invariant i + 7 < |docs|
      invariant trainingData + Weeks(docs, i) == Weeks(docs, |docs| - 14)
      decreases i
    {
      var thisWeekInput: seq<real> := [];
      for j := 0 to 7
        invariant |thisWeekInput| == j
        invariant forall k :: 0 <= k < j ==> thisWeekInput[k] == Normalize(docs[i].close, docs[i].low)
      {
        var currentPrice := docs[i].close;
        var previousPrice := docs[i].low;
        thisWeekInput := thisWeekInput + [Normalize(currentPrice, previousPrice)];
      }
      var lastDayPrice := docs[i + 7].close;
      var secondToLastDayPrice := docs[i + 6].open;
      var thisWeekOutput := [Normalize(lastDayPrice, secondToLastDayPrice)];
      assert Example(thisWeekInput, thisWeekOutput) == Week(docs, i);
      assert Weeks(docs, i) == [Week(docs, i)] + Weeks(docs, i - 7);
      trainingData := trainingData + [Example(thisWeekInput, thisWeekOutput)];
      i := i - 7;
    }
    assert trainingData + [] == trainingData;
  }
}
