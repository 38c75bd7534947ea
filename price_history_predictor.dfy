/** The stand-alone predictor behind the prediction endpoint: a date-anchored
    weekly walk (starting 13 days before the anchor, stepping back 7 calendar
    days, skipping weeks whose anchor time is missing) builds the training set,
    and the prediction is the network output minus 0.5. */
module PriceHistoryPredictor {
  import opened PriceData

  /** The result of `generateTrainingData`: null, an exception thrown by an
      unguarded read outside the array, or the examples. */
  datatype TrainingOutcome = NoAnchor | Threw | Examples(weeks: seq<Example>)

  /** The result of `run`: null, an exception escaping it, or a number. */
  datatype RunOutcome = Null | Throws | Prediction(value: real)

  /** JS truthiness of the looked-up index: null and 0 are both falsy. */
  predicate Falsy(found: Option<nat>)
  {
    found.None? || found.value == 0
  }

  /** Whether every sample a training week starting at index `w` reads exists. */
  predicate WeekReadable(docs: seq<PricePoint>, w: int)
  {
    SamplesPerDay <= w && w + 7 * SamplesPerDay < |docs|
  }

  function Prepend(pre: seq<Example>, o: TrainingOutcome): TrainingOutcome
  {
    match o
    case Examples(rest) => Examples(pre + rest)
    case _ => o
  }

  /** The walk over weekly anchor times from `weekly` down while it is after
      `earliest`: a falsy lookup skips the week, an unreadable week throws,
      every other week adds its example, newest first. */
  function Walk(docs: seq<PricePoint>, weekly: int, earliest: int): (r: TrainingOutcome)
    requires OpensNonZero(docs)
    ensures r != NoAnchor
    decreases weekly - earliest
  {
    if weekly <= earliest then Examples([])
    else
      var found := LastIndexOf(docs, weekly);
      if Falsy(found) then Walk(docs, AddDays(weekly, -7), earliest)
      else if !WeekReadable(docs, found.value) then Threw
      else Prepend([DailyWeek(docs, found.value)], Walk(docs, AddDays(weekly, -7), earliest))
  }

  /** `generateTrainingData`: null when the anchor lookup is falsy (absent, or
      found at index 0); otherwise the walk from 13 days before the anchor down
      to the first document's time. */
  function TrainingData(docs: seq<PricePoint>, anchor: int): TrainingOutcome
    requires OpensNonZero(docs)
  {
    var found := LastIndexOf(docs, anchor);
    if Falsy(found) then NoAnchor
    else Walk(docs, AddDays(anchor, -13), docs[0].time)
  }

  /** The weekly anchor times the walk visits, found or not. */
  function Anchors(weekly: int, earliest: int): seq<int>
    decreases weekly - earliest
  {
    if weekly <= earliest then [] else [weekly] + Anchors(AddDays(weekly, -7), earliest)
  }

  /** The walk visits weekly, weekly - 7 days, ... : exactly the anchors
      strictly after `earliest`, ceil((weekly - earliest) / 7 days) of them. */
  lemma {:induction false} AnchorsShape(weekly: int, earliest: int)
    ensures |Anchors(weekly, earliest)| ==
      if weekly <= earliest then 0 else (weekly - earliest - 1) / (7 * SecondsPerDay) + 1
    ensures forall k :: 0 <= k < |Anchors(weekly, earliest)| ==>
      Anchors(weekly, earliest)[k] == weekly - 7 * SecondsPerDay * k &&
      Anchors(weekly, earliest)[k] > earliest
    decreases weekly - earliest
  {
    if weekly > earliest {
      var next := AddDays(weekly, -7);
      AnchorsShape(next, earliest);
      var m := weekly - earliest - 1;
      assert m - 7 * SecondsPerDay < 0 ==> m / (7 * SecondsPerDay) == 0;
      assert m - 7 * SecondsPerDay >= 0 ==> (m - 7 * SecondsPerDay) / (7 * SecondsPerDay) + 1 == m / (7 * SecondsPerDay);
    }
  }

  /** The indices of the visited weeks whose lookup is truthy, in walk order. */
  function Found(docs: seq<PricePoint>, weekly: int, earliest: int): (r: seq<nat>)
    ensures forall k :: 0 <= k < |r| ==> 0 < r[k] < |docs|
    decreases weekly - earliest
  {
    if weekly <= earliest then []
    else
      var found := LastIndexOf(docs, weekly);
      if Falsy(found) then Found(docs, AddDays(weekly, -7), earliest)
      else [found.value] + Found(docs, AddDays(weekly, -7), earliest)
  }

  /** Whether every index in `f` starts a readable week. */
  predicate AllReadable(docs: seq<PricePoint>, f: seq<nat>)
  {
    forall k :: 0 <= k < |f| ==> WeekReadable(docs, f[k])
  }

  /** The windows of the weeks starting at the indices of `f`, in order. */
  function WeekExamples(docs: seq<PricePoint>, f: seq<nat>): (r: seq<Example>)
    requires OpensNonZero(docs) && AllReadable(docs, f)
    ensures |r| == |f|
    ensures forall k :: 0 <= k < |f| ==> r[k] == DailyWeek(docs, f[k])
  {
    if f == [] then [] else [DailyWeek(docs, f[0])] + WeekExamples(docs, f[1..])
  }

  /** When every week with a truthy lookup can be read, the walk adds exactly
      one example per such week, that week's window, in walk order. */
  lemma {:induction false} WalkByFound(docs: seq<PricePoint>, weekly: int, earliest: int)
    requires OpensNonZero(docs)
    requires AllReadable(docs, Found(docs, weekly, earliest))
    ensures Walk(docs, weekly, earliest) == Examples(WeekExamples(docs, Found(docs, weekly, earliest)))
    decreases weekly - earliest
  {
    if weekly > earliest {
      var next := AddDays(weekly, -7);
      var found := LastIndexOf(docs, weekly);
      var f := Found(docs, weekly, earliest);
      var g := Found(docs, next, earliest);
      if !Falsy(found) {
        assert f == [found.value] + g;
        assert f[1..] == g;
        assert AllReadable(docs, g) by {
          forall k | 0 <= k < |g| ensures WeekReadable(docs, g[k]) {
            assert g[k] == f[k + 1];
          }
        }
      }
      WalkByFound(docs, next, earliest);
    }
  }

  /** The walk throws exactly when some week with a truthy lookup cannot be
      read (w < 24 or w + 168 past the end). */
  lemma {:induction false} WalkThrowsByFound(docs: seq<PricePoint>, weekly: int, earliest: int)
    requires OpensNonZero(docs)
    ensures Walk(docs, weekly, earliest) == Threw <==> !AllReadable(docs, Found(docs, weekly, earliest))
    decreases weekly - earliest
  {
    if weekly > earliest {
      var next := AddDays(weekly, -7);
      WalkThrowsByFound(docs, next, earliest);
      var found := LastIndexOf(docs, weekly);
      var f := Found(docs, weekly, earliest);
      var g := Found(docs, next, earliest);
      if !Falsy(found) {
        assert f == [found.value] + g;
        if AllReadable(docs, f) {
          assert WeekReadable(docs, f[0]);
          assert AllReadable(docs, g) by {
            forall k | 0 <= k < |g| ensures WeekReadable(docs, g[k]) {
              assert g[k] == f[k + 1];
            }
          }
        } else if WeekReadable(docs, found.value) {
          var k :| 0 <= k < |f| && !WeekReadable(docs, f[k]);
          assert g[k - 1] == f[k];
        }
      }
    }
  }

  /** The truthy lookups of the anchor times `times`, in order. */
  function TruthyLookups(docs: seq<PricePoint>, times: seq<int>): (r: seq<nat>)
    ensures |r| <= |times|
    ensures forall k :: 0 <= k < |r| ==> 0 < r[k] < |docs|
  {
    if times == [] then []
    else
      var found := LastIndexOf(docs, times[0]);
      if Falsy(found) then TruthyLookups(docs, times[1..])
      else [found.value] + TruthyLookups(docs, times[1..])
  }

  /** The weeks the walk uses are, in walk order, the truthy lookups of the
      anchor times it visits. */
  lemma {:induction false} FoundByAnchors(docs: seq<PricePoint>, weekly: int, earliest: int)
    ensures Found(docs, weekly, earliest) == TruthyLookups(docs, Anchors(weekly, earliest))
    decreases weekly - earliest
  {
    if weekly > earliest {
      var next := AddDays(weekly, -7);
      FoundByAnchors(docs, next, earliest);
      var a := Anchors(weekly, earliest);
      assert a == [weekly] + Anchors(next, earliest);
      assert a[0] == weekly && a[1..] == Anchors(next, earliest);
    }
  }

  /** At most one example per visited week. */
  lemma {:induction false} FoundAtMostAnchors(docs: seq<PricePoint>, weekly: int, earliest: int)
    ensures |Found(docs, weekly, earliest)| <= |Anchors(weekly, earliest)|
    decreases weekly - earliest
  {
    if weekly > earliest {
      FoundAtMostAnchors(docs, AddDays(weekly, -7), earliest);
    }
  }

  /** A week whose anchor lookup is falsy adds nothing: the walk from it is the
      walk from one week earlier. */
  lemma SkippedWeek(docs: seq<PricePoint>, weekly: int, earliest: int)
    requires OpensNonZero(docs)
    requires weekly > earliest && Falsy(LastIndexOf(docs, weekly))
    ensures Walk(docs, weekly, earliest) == Walk(docs, AddDays(weekly, -7), earliest)
    ensures Found(docs, weekly, earliest) == Found(docs, AddDays(weekly, -7), earliest)
  {
  }

  /** `generateTrainingData`, with the unguarded reads' exception made explicit. */
  method GenerateTrainingData(docs: seq<PricePoint>, anchor: int) returns (outcome: TrainingOutcome)
    requires OpensNonZero(docs)
    ensures outcome == TrainingData(docs, anchor)
  {
    var anchorIndex := FindIndexOfDateTime(docs, anchor);
    if Falsy(anchorIndex) {
      return NoAnchor;
    }
    var trainingData: seq<Example> := [];
    var earliestDateTime := docs[0].time;
    var weeklyAnchorDateTime := AddDays(anchor, -13);
    while weeklyAnchorDateTime > earliestDateTime
      invariant Walk(docs, AddDays(anchor, -13), earliestDateTime)
             == Prepend(trainingData, Walk(docs, weeklyAnchorDateTime, earliestDateTime))
      decreases weeklyAnchorDateTime - earliestDateTime
    {
      var weeklyAnchorIndex := FindIndexOfDateTime(docs, weeklyAnchorDateTime);
      if Falsy(weeklyAnchorIndex) {
        weeklyAnchorDateTime := AddDays(weeklyAnchorDateTime, -7);
        continue;
      }
      var w := weeklyAnchorIndex.value;
      if !WeekReadable(docs, w) {
        // docs[w - 24] or docs[w + 168] is undefined and reading `.open` throws
        return Threw;
      }
      var thisWeekData := BuildWeek(docs, w);
      trainingData := trainingData + [thisWeekData];
      weeklyAnchorDateTime := AddDays(weeklyAnchorDateTime, -7);
    }
    return Examples(trainingData);
  }

  /** `run`: null when no network can be trained; 0 when the prediction window
      starting six days before now cannot be read (the exception is caught);
      otherwise the de-normalised output. An exception from the training walk
      escapes. */
  function Run(docs: seq<PricePoint>, now: int, net: Network): RunOutcome
    requires OpensNonZero(docs)
  {
    match TrainingData(docs, now)
    case NoAnchor => Null
    case Threw => Throws
    case Examples(weeks) =>
      match TryWindow(docs, LastIndexOf(docs, AddDays(now, -6)))
      case None => Prediction(0.0)
      case Some(inputs) => Prediction(net(weeks, inputs) - 0.5)
  }

  method RunPredictor(docs: seq<PricePoint>, now: int, net: Network) returns (r: RunOutcome)
    requires OpensNonZero(docs)
    ensures r == Run(docs, now, net)
    ensures r.Null? <==> Falsy(LastIndexOf(docs, now))
  {
    var trainingData := GenerateTrainingData(docs, now);
    if trainingData.NoAnchor? {
      return Null;
    }
    if trainingData.Threw? {
      return Throws;
    }
    var weekStartIndex := FindIndexOfDateTime(docs, AddDays(now, -6));
    var inputs := ReadInputs(docs, weekStartIndex);
    if inputs.None? {
      return Prediction(0.0);
    }
    var output := net(trainingData.weeks, inputs.value);
    var prediction := output - 0.5;
    return Prediction(prediction);
  }

  // ---------------------------------------------------------------------------
  // The walk reads before the first sample

  /** An hourly series with no gaps, starting at `t0`. */
  predicate HourlyFrom(docs: seq<PricePoint>, t0: int)
  {
    forall k :: 0 <= k < |docs| ==> docs[k].time == t0 + 3600 * k
  }

  /** On a gap-free hourly series the walk's weeks keep stepping back while
      their anchor is after the first sample, so the oldest week can be found
      at an index below 24; its first read is docs[w - 24] and `run` throws.
      Here the anchor is the 314th sample: the first weekly anchor is the
      second sample. */
  lemma WalkThrowsNearStart(docs: seq<PricePoint>, t0: int, net: Network)
    requires OpensNonZero(docs) && HourlyFrom(docs, t0) && |docs| == 314
    ensures TrainingData(docs, t0 + 3600 * 313) == Threw
    ensures Run(docs, t0 + 3600 * 313, net) == Throws
  {
    var anchor := t0 + 3600 * 313;
    assert docs[313].time == anchor;
    var a := LastIndexOf(docs, anchor);
    assert a.Some? && a.value == 313;
    var weekly := AddDays(anchor, -13);
    assert weekly == t0 + 3600;
    assert docs[1].time == weekly;
    var w := LastIndexOf(docs, weekly);
    assert w.Some? && w.value == 1;
    assert weekly > docs[0].time;
  }

  /** The evidently intended walk: a week whose window cannot be read is skipped
      like a missing week rather than aborting the whole run. */
  function GuardedWalk(docs: seq<PricePoint>, weekly: int, earliest: int): (r: seq<Example>)
    requires OpensNonZero(docs)
    decreases weekly - earliest
  {
    if weekly <= earliest then []
    else
      var found := LastIndexOf(docs, weekly);
      if Falsy(found) || !WeekReadable(docs, found.value) then GuardedWalk(docs, AddDays(weekly, -7), earliest)
      else [DailyWeek(docs, found.value)] + GuardedWalk(docs, AddDays(weekly, -7), earliest)
  }

  /** The indices of `f` that start a readable week, in their order in `f`. */
  function ReadableOnly(docs: seq<PricePoint>, f: seq<nat>): (r: seq<nat>)
    ensures |r| <= |f|
    ensures AllReadable(docs, r)
    ensures forall x :: x in r <==> x in f && WeekReadable(docs, x)
  {
    if f == [] then []
    else if WeekReadable(docs, f[0]) then [f[0]] + ReadableOnly(docs, f[1..])
    else ReadableOnly(docs, f[1..])
  }

  /** The guarded walk adds one example per found week that can be read, that
      week's window, in walk order; a found week that cannot be read is
      skipped and the weeks after it are kept. */
  lemma {:induction false} GuardedWalkByFound(docs: seq<PricePoint>, weekly: int, earliest: int)
    requires OpensNonZero(docs)
    ensures GuardedWalk(docs, weekly, earliest) ==
            WeekExamples(docs, ReadableOnly(docs, Found(docs, weekly, earliest)))
    decreases weekly - earliest
  {
    if weekly > earliest {
      var next := AddDays(weekly, -7);
      GuardedWalkByFound(docs, next, earliest);
      var found := LastIndexOf(docs, weekly);
      var f := Found(docs, weekly, earliest);
      var g := Found(docs, next, earliest);
      if !Falsy(found) {
        assert f == [found.value] + g;
        assert f[0] == found.value && f[1..] == g;
        var r := ReadableOnly(docs, f);
        if WeekReadable(docs, found.value) {
          assert r == [found.value] + ReadableOnly(docs, g);
          assert r[0] == found.value && r[1..] == ReadableOnly(docs, g);
        }
      }
    }
  }

  /** The guarded walk agrees with the code as written whenever that does not
      throw: there every found week is readable, so nothing is skipped. */
  lemma GuardedWalkSound(docs: seq<PricePoint>, weekly: int, earliest: int)
    requires OpensNonZero(docs)
    ensures Walk(docs, weekly, earliest) != Threw ==>
            Walk(docs, weekly, earliest) == Examples(GuardedWalk(docs, weekly, earliest))
  {
    var f := Found(docs, weekly, earliest);
    WalkThrowsByFound(docs, weekly, earliest);
    if Walk(docs, weekly, earliest) != Threw {
      WalkByFound(docs, weekly, earliest);
      GuardedWalkByFound(docs, weekly, earliest);
      ReadableOnlyKeepsAll(docs, f);
    }
  }

  /** Filtering a list of readable indices keeps all of them. */
  lemma {:induction false} ReadableOnlyKeepsAll(docs: seq<PricePoint>, f: seq<nat>)
    requires AllReadable(docs, f)
    ensures ReadableOnly(docs, f) == f
  {
    if f != [] {
      assert AllReadable(docs, f[1..]) by {
        forall k | 0 <= k < |f| - 1 ensures WeekReadable(docs, f[1..][k]) {
          assert f[1..][k] == f[k + 1];
        }
      }
      ReadableOnlyKeepsAll(docs, f[1..]);
      assert WeekReadable(docs, f[0]);
    }
  }

  /** `run` over the guarded walk. */
  function GuardedRun(docs: seq<PricePoint>, now: int, net: Network): RunOutcome
    requires OpensNonZero(docs)
  {
    if Falsy(LastIndexOf(docs, now)) then Null
    else
      var weeks := GuardedWalk(docs, AddDays(now, -13), docs[0].time);
      match TryWindow(docs, LastIndexOf(docs, AddDays(now, -6)))
      case None => Prediction(0.0)
      case Some(inputs) => Prediction(net(weeks, inputs) - 0.5)
  }

  /** With the guarded walk `run` never throws, is null exactly when the
      anchor lookup is falsy, trains the network on exactly the found weeks
      that can be read, in walk order, and gives the same answer as the code
      as written whenever that does not throw. */
  lemma GuardedRunSound(docs: seq<PricePoint>, now: int, net: Network)
    requires OpensNonZero(docs)
    ensures GuardedRun(docs, now, net) != Throws
    ensures GuardedRun(docs, now, net).Null? <==> Falsy(LastIndexOf(docs, now))
    ensures var window := TryWindow(docs, LastIndexOf(docs, AddDays(now, -6)));
            !Falsy(LastIndexOf(docs, now)) && window.Some? ==>
              GuardedRun(docs, now, net) == Prediction(net(
                WeekExamples(docs, ReadableOnly(docs, Found(docs, AddDays(now, -13), docs[0].time))),
                window.value) - 0.5)
    ensures Run(docs, now, net) != Throws ==> Run(docs, now, net) == GuardedRun(docs, now, net)
  {
    if !Falsy(LastIndexOf(docs, now)) {
      GuardedWalkByFound(docs, AddDays(now, -13), docs[0].time);
      GuardedWalkSound(docs, AddDays(now, -13), docs[0].time);
    }
  }
}
