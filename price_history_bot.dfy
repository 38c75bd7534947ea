/** The price-history bot: trains a network on weekly windows of the hourly
    history before "now" and turns its de-normalised prediction into a decision
    clamped to [-1, 1]. The index-anchored walk starts two weeks (14*24 samples)
    before the anchor and steps back a week (7*24 samples) at a time. */
module PriceHistoryBot {
  import opened PriceData

  const FirstWeekOffset: int := 14 * SamplesPerDay
  const WeekStep: int := 7 * SamplesPerDay
  const LowestStart: int := 8 * SamplesPerDay

  /** The examples of the walk from week start `i` downwards, newest first. */
  function Weeks(docs: seq<PricePoint>, i: int): (r: seq<Example>)
    requires i + WeekStep < |docs| && OpensNonZero(docs)
    decreases i
  {
    if i < LowestStart then []
    else [DailyWeek(docs, i)] + Weeks(docs, i - WeekStep)
  }

  /** `generateTrainingData`: null when the anchor time is absent; otherwise the
      weekly walk from the anchor's index. */
  function TrainingData(docs: seq<PricePoint>, anchor: int): Option<seq<Example>>
    requires OpensNonZero(docs)
  {
    match LastIndexOf(docs, anchor)
    case None => None
    case Some(a) => Some(Weeks(docs, a - FirstWeekOffset))
  }

  /** Week k of the walk from `i` is the window starting at `i - 168*k`, and
      every sample it reads lies in [168, i + 168]. */
  lemma {:induction false} WeeksAt(docs: seq<PricePoint>, i: int, k: nat)
    requires i + WeekStep < |docs| && OpensNonZero(docs)
    requires k < |Weeks(docs, i)|
    ensures LowestStart <= i - WeekStep * k
    ensures Weeks(docs, i)[k] == DailyWeek(docs, i - WeekStep * k)
    decreases i
  {
    if k > 0 {
      var j := i - WeekStep;
      WeeksAt(docs, j, k - 1);
      assert Weeks(docs, i)[k] == Weeks(docs, j)[k - 1];
      assert i - WeekStep * k == j - WeekStep * (k - 1);
    }
  }

  /** The walk from `i` yields floor((i - 192) / 168) + 1 examples when
      i >= 192, and none otherwise. */
  lemma {:induction false} WeeksCount(docs: seq<PricePoint>, i: int)
    requires i + WeekStep < |docs| && OpensNonZero(docs)
    ensures |Weeks(docs, i)| == if i < LowestStart then 0 else (i - LowestStart) / WeekStep + 1
    decreases i
  {
    if i >= LowestStart {
      WeeksCount(docs, i - WeekStep);
      assert |Weeks(docs, i)| == 1 + |Weeks(docs, i - WeekStep)|;
      WeekDivision(i - LowestStart);
    }
  }

  lemma WeekDivision(m: int)
    requires m >= 0
    ensures m - WeekStep < 0 ==> m / WeekStep == 0
    ensures m - WeekStep >= 0 ==> (m - WeekStep) / WeekStep + 1 == m / WeekStep
  {
  }

  /** The walk for an anchor at index `a`: floor((a - 528) / 168) + 1
      examples when a >= 528, otherwise none; example k is the window starting
      at a - 336 - 168*k, so every read lies in [168, a - 168]. */
  lemma {:induction false} WalkFromAnchor(docs: seq<PricePoint>, a: nat)
    requires a < |docs| && OpensNonZero(docs)
    ensures |Weeks(docs, a - FirstWeekOffset)| == if a < 528 then 0 else (a - 528) / WeekStep + 1
    ensures forall k :: 0 <= k < |Weeks(docs, a - FirstWeekOffset)| ==>
      168 <= a - FirstWeekOffset - WeekStep * k - SamplesPerDay &&
      a - FirstWeekOffset - WeekStep * k + 7 * SamplesPerDay <= a - WeekStep &&
      Weeks(docs, a - FirstWeekOffset)[k] == DailyWeek(docs, a - FirstWeekOffset - WeekStep * k)
  {
    var i := a - FirstWeekOffset;
    WeeksCount(docs, i);
    forall k | 0 <= k < |Weeks(docs, i)|
      ensures LowestStart <= i - WeekStep * k
      ensures Weeks(docs, i)[k] == DailyWeek(docs, i - WeekStep * k)
    {
      WeeksAt(docs, i, k);
    }
  }

  /** From an anchor found at index `a`, `generateTrainingData` is not null:
      it is the walk above, an empty list (not null) when a < 528, and nothing
      in the last 168 samples before the anchor is used. */
  lemma TrainingDataShape(docs: seq<PricePoint>, anchor: int, a: nat)
    requires OpensNonZero(docs)
    requires LastIndexOf(docs, anchor) == Some(a)
    ensures TrainingData(docs, anchor) == Some(Weeks(docs, a - FirstWeekOffset))
    ensures |TrainingData(docs, anchor).value| == if a < 528 then 0 else (a - 528) / WeekStep + 1
    ensures forall k :: 0 <= k < |TrainingData(docs, anchor).value| ==>
      168 <= a - FirstWeekOffset - WeekStep * k - SamplesPerDay &&
      a - FirstWeekOffset - WeekStep * k + 7 * SamplesPerDay <= a - WeekStep &&
      TrainingData(docs, anchor).value[k] == DailyWeek(docs, a - FirstWeekOffset - WeekStep * k)
  {
    WalkFromAnchor(docs, a);
  }

  /** The loop of `generateTrainingData` pushing one example per week, from
      week start `start` down while the start is at least 192. */
  method WalkWeeks(docs: seq<PricePoint>, start: int) returns (weeks: seq<Example>)
    requires start + WeekStep < |docs| && OpensNonZero(docs)
    ensures weeks == Weeks(docs, start)
  {
    weeks := [];
    var w := start;
    while w >= LowestStart
      invariant w + WeekStep < |docs|
      invariant weeks + Weeks(docs, w) == Weeks(docs, start)
      decreases w
    {
      var thisWeekData := BuildWeek(docs, w);
      assert Weeks(docs, w) == [thisWeekData] + Weeks(docs, w - WeekStep);
      weeks := weeks + [thisWeekData];
      w := w - WeekStep;
    }
    assert weeks + [] == weeks;
  }

  /** `generateTrainingData`: the backward anchor scan (sentinel -1, so index 0
      is a valid anchor), then the weekly walk from 336 samples before it. */
  method GenerateTrainingData(docs: seq<PricePoint>, anchor: int) returns (trainingData: Option<seq<Example>>)
    requires OpensNonZero(docs)
    ensures trainingData == TrainingData(docs, anchor)
  {
    var anchorIndex := -1;
    var i := |docs| - 1;
    while i >= 0
      invariant -1 <= i < |docs|
      invariant forall j :: i < j < |docs| ==> docs[j].time != anchor
      decreases i + 1
    {
      if docs[i].time == anchor {
        anchorIndex := i;
        break;
      }
      i := i - 1;
    }
    if anchorIndex == -1 {
      return None;
    }
    assert LastIndexOf(docs, anchor) == Some(anchorIndex);
    var weeks := WalkWeeks(docs, anchorIndex - FirstWeekOffset);
    return Some(weeks);
  }

  /** The de-normalised prediction scaled by 5 and clamped to [-1, 1]. */
  function Clamp(x: real): (d: real)
    ensures -1.0 <= d <= 1.0
    ensures -1.0 <= x <= 1.0 ==> d == x
    ensures x > 1.0 ==> d == 1.0
    ensures x < -1.0 ==> d == -1.0
  {
    if x > 1.0 then 1.0 else if x < -1.0 then -1.0 else x
  }

  /** `makeDecision`: 1 on day 1; 0 when no training data can be built or the
      prediction window (starting six days before now) cannot be read;
      otherwise `clamp((output - 0.5) * 5)`. */
  function Decision(docs: seq<PricePoint>, now: int, day: int, net: Network): real
    requires OpensNonZero(docs)
  {
    if day == 1 then 1.0
    else match TrainingData(docs, now)
      case None => 0.0
      case Some(weeks) =>
        match TryWindow(docs, LastIndexOf(docs, AddDays(now, -6)))
        case None => 0.0
        case Some(inputs) => Clamp((net(weeks, inputs) - 0.5) * 5.0)
  }

  /** Whatever the network outputs, the decision is a valid one. */
  lemma DecisionInRange(docs: seq<PricePoint>, now: int, day: int, net: Network)
    requires OpensNonZero(docs)
    ensures -1.0 <= Decision(docs, now, day, net) <= 1.0
  {
  }

  method MakeDecision(docs: seq<PricePoint>, now: int, day: int, net: Network) returns (decision: real)
    requires OpensNonZero(docs)
    ensures decision == Decision(docs, now, day, net)
    ensures day == 1 ==> decision == 1.0
    ensures -1.0 <= decision <= 1.0
  {
    if day == 1 {
      return 1.0;
    }
    var trainingData := GenerateTrainingData(docs, now);
    if trainingData.None? {
      return 0.0;
    }
    var weekStartIndex := FindIndexOfDateTime(docs, AddDays(now, -6));
    var inputs := ReadInputs(docs, weekStartIndex);
    if inputs.None? {
      return 0.0;
    }
    var output := net(trainingData.value, inputs.value);
    var prediction := output - 0.5;
    decision := prediction * 5.0;
    if decision > 1.0 {
      decision := 1.0;
    } else if decision < -1.0 {
      decision := -1.0;
    }
  }
}
