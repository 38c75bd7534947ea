/** The one-off training script over a daily candle response: the rows are
    reversed (oldest first) and walked forward from index 1 in steps of 7; each
    example has six inputs (changes of the open price, column 3) and the change
    from the seventh to the eighth day as output. */
module PriceHistoryScript {
  import opened PriceData

  /** Every row has an open price (column 3) that can divide. */
  predicate OpenColumnNonZero(rows: seq<Row>)
  {
    forall k :: 0 <= k < |rows| ==> |rows[k]| > 3 && rows[k][3] != 0.0
  }

  /** The example of the week at `i`: input j is the change from row i+j-1 to
      row i+j (j = 0..5); the output is the change from row i+6 to row i+7. */
  function Week(json: seq<Row>, i: int): Example
    requires 1 <= i && i + 7 < |json| && OpenColumnNonZero(json)
  {
    Example(seq(6, j requires 0 <= j < 6 => Normalize(json[i + j][3], json[i + j - 1][3])),
            [Normalize(json[i + 7][3], json[i + 6][3])])
  }

  /** The walk from `i` forward while i < len - 7, oldest first. */
  function Weeks(json: seq<Row>, i: int): seq<Example>
    requires 1 <= i && OpenColumnNonZero(json)
    decreases |json| - i
  {
    if i >= |json| - 7 then [] else [Week(json, i)] + Weeks(json, i + 7)
  }

  lemma {:induction false} WeeksCount(json: seq<Row>, i: int)
    requires 1 <= i && OpenColumnNonZero(json)
    ensures |Weeks(json, i)| == if i >= |json| - 7 then 0 else (|json| - i - 1) / 7
    decreases |json| - i
  {
    if i < |json| - 7 {
      WeeksCount(json, i + 7);
      var m := |json| - i - 1;
      assert m - 7 < 7 ==> (m - 7 < 0 || (m - 7) / 7 == 0);
      assert m - 7 >= 0 ==> (m - 7) / 7 + 1 == m / 7;
    }
  }

  lemma {:induction false} WeeksAt(json: seq<Row>, i: int, k: nat)
    requires 1 <= i && OpenColumnNonZero(json)
    requires k < |Weeks(json, i)|
    ensures i + 7 * k + 7 < |json|
    ensures Weeks(json, i)[k] == Week(json, i + 7 * k)
    decreases |json| - i
  {
    if k > 0 {
      WeeksAt(json, i + 7, k - 1);
    }
  }

  /** From `len` rows: ceil((len - 8) / 7) examples when len > 8, else none;
      example k starts at i = 1 + 7k and reads rows i-1 .. i+7 only, all inside
      the array, oldest week first. */
  lemma TrainingDataShape(json: seq<Row>)
    requires OpenColumnNonZero(json)
    ensures |Weeks(json, 1)| == if |json| <= 8 then 0 else (|json| - 8 + 6) / 7
    ensures forall k :: 0 <= k < |Weeks(json, 1)| ==>
      0 <= 1 + 7 * k - 1 && 1 + 7 * k + 7 <= |json| - 1 &&
      Weeks(json, 1)[k] == Week(json, 1 + 7 * k)
  {
    WeeksCount(json, 1);
    forall k | 0 <= k < |Weeks(json, 1)|
      ensures 1 + 7 * k + 7 < |json| && Weeks(json, 1)[k] == Week(json, 1 + 7 * k)
    {
      WeeksAt(json, 1, k);
    }
  }

  lemma ReversedKeepsOpens(body: seq<Row>)
    requires OpenColumnNonZero(body)
    ensures OpenColumnNonZero(Reversed(body))
  {
    var json := Reversed(body);
    forall k | 0 <= k < |json| ensures |json[k]| > 3 && json[k][3] != 0.0 {
      assert json[k] == body[|body| - 1 - k];
    }
  }

  /** One iteration of the walk: the six inputs, then the output. */
  method BuildWeek(json: seq<Row>, i: int) returns (week: Example)
    requires 1 <= i && i + 7 < |json| && OpenColumnNonZero(json)
    ensures week == Week(json, i)
  {
    var thisWeekInput: seq<real> := [];
    for j := 0 to 6
      invariant |thisWeekInput| == j
      invariant forall k :: 0 <= k < j ==> thisWeekInput[k] == Normalize(json[i + k][3], json[i + k - 1][3])
    {
      var currentPrice := json[i + j][3];
      var previousPrice := json[i + j - 1][3];
      var percentage := currentPrice / previousPrice;
      var normalized := percentage - 0.5;
      thisWeekInput := thisWeekInput + [normalized];
    }
    var fridayPrice := json[i + 7][3];
    var thursdayPrice := json[i + 6][3];
    var percentage := fridayPrice / thursdayPrice;
    var thisWeekOutput := [percentage - 0.5];
    week := Example(thisWeekInput, thisWeekOutput);
  }

  /** The body of the response callback: reverse the rows, then push one
      example per week. */
  method TrainingDataFromResponse(body: seq<Row>) returns (trainingData: seq<Example>)
    requires OpenColumnNonZero(body)
    ensures OpenColumnNonZero(Reversed(body)) && trainingData == Weeks(Reversed(body), 1)
  {
    var json := Reversed(body);
    ReversedKeepsOpens(body);
    trainingData := [];
    var i := 1;
    while i < |json| - 7
      invariant 1 <= i
      invariant trainingData + Weeks(json, i) == Weeks(json, 1)
      decreases |json| - i
    {
      var thisWeekData := BuildWeek(json, i);
      assert Weeks(json, i) == [thisWeekData] + Weeks(json, i + 7);
      trainingData := trainingData + [thisWeekData];
      i := i + 7;
    }
    assert trainingData + [] == trainingData;
  }
}
