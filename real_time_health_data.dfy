/** The live readings card: the trend arrow beside each reading, the colour of
    each reading's icon, and the two state slots the database listener updates
    (the latest sample and the one before it). */
module RealTimeHealthData {
  import opened HealthTypes

  // ---------------------------------------------------------------- trend

  /** The three icons of the trend indicator. */
  datatype Trend =
    | Neutral   // grey dash
    | Up        // red upward arrow
    | Down      // blue downward arrow

  /** `!previous`: a missing value and 0 are both falsy. */
  predicate Falsy(previous: Option<real>) {
    previous.None? || previous.value == 0.0
  }

  function Abs(x: real): real {
    if x < 0.0 then -x else x
  }

  /** `getTrendIndicator`: no trend without a (non-zero) previous value;
      otherwise a change smaller than 2% of the current value is neutral, and a
      larger one points the way it went. The band is taken from the current
      value, so it is empty when that value is not positive. */
  function TrendIndicator(current: real, previous: Option<real>): (t: Trend)
    ensures Falsy(previous) ==> t == Neutral
    ensures !Falsy(previous) ==>
              && (t == Neutral <==> current * 0.98 < previous.value < current * 1.02)
              && (t == Up <==> previous.value < current && previous.value <= current * 0.98)
              && (t == Down <==> current <= previous.value && current * 1.02 <= previous.value)
  {
    if Falsy(previous) then Neutral
    else
      var diff := current - previous.value;
      var threshold := current * 0.02;
      if Abs(diff) < threshold then Neutral
      else if diff > 0.0 then Up
      else Down
  }

  /** Multiplying both sides by a positive factor keeps a comparison. */
  lemma ScaleKeepsOrder(k: real, a: real, b: real)
    requires k > 0.0
    ensures k * a <= k * b <==> a <= b
    ensures k * a < k * b <==> a < b
  {
    assert k * b - k * a == k * (b - a);
    if a < b { assert k * (b - a) > 0.0; }
    if b < a { assert k * (a - b) > 0.0; }
  }

  /** Scaling a value and a fraction of another by the same positive factor
      keeps their order. */
  lemma ScaleKeepsFractionOrder(k: real, c: real, p: real, f: real, kc: real, kp: real)
    requires k > 0.0 && kc == k * c && kp == k * p
    ensures kc * f < kp <==> c * f < p
    ensures kc * f <= kp <==> c * f <= p
    ensures kp < kc * f <==> p < c * f
    ensures kp <= kc * f <==> p <= c * f
  {
    assert kc * f == k * (c * f);
    ScaleKeepsOrder(k, c * f, p);
    ScaleKeepsOrder(k, p, c * f);
  }

  /** Two pairs that compare alike against the 2% band get the same indicator. */
  lemma TrendFromComparisons(c1: real, p1: real, c2: real, p2: real)
    requires p1 != 0.0 && p2 != 0.0
    requires p1 < c1 <==> p2 < c2
    requires c1 <= p1 <==> c2 <= p2
    requires p1 <= c1 * 0.98 <==> p2 <= c2 * 0.98
    requires c1 * 0.98 < p1 <==> c2 * 0.98 < p2
    requires c1 * 1.02 <= p1 <==> c2 * 1.02 <= p2
    requires p1 < c1 * 1.02 <==> p2 < c2 * 1.02
    ensures TrendIndicator(c1, Some(p1)) == TrendIndicator(c2, Some(p2))
  {
  }

  /** The indicator depends only on the ratio of the two values: scaling both by
      the same positive factor (a change of unit) leaves it as it was. */
  lemma TrendScaleInvariant(current: real, previous: real, k: real, scaledCurrent: real, scaledPrevious: real)
    requires k > 0.0 && scaledCurrent == k * current && scaledPrevious == k * previous
    ensures TrendIndicator(scaledCurrent, Some(scaledPrevious)) == TrendIndicator(current, Some(previous))
  {
    if previous != 0.0 {
      ScaleKeepsOrder(k, 0.0, previous);
      ScaleKeepsOrder(k, previous, 0.0);
      ScaleKeepsFractionOrder(k, current, previous, 1.0, scaledCurrent, scaledPrevious);
      ScaleKeepsFractionOrder(k, current, previous, 0.98, scaledCurrent, scaledPrevious);
      ScaleKeepsFractionOrder(k, current, previous, 1.02, scaledCurrent, scaledPrevious);
      TrendFromComparisons(scaledCurrent, scaledPrevious, current, previous);
    }
  }

  /** With a current value of zero or below the neutral band is empty: any
      non-zero previous value gives an arrow, even an unchanged one. */
  lemma NonPositiveNeverNeutral(current: real, previous: real)
    requires current <= 0.0 && previous != 0.0
    ensures TrendIndicator(current, Some(previous)) != Neutral
    ensures previous == current ==> TrendIndicator(current, Some(previous)) == Down
  {
  }

  /** The band is measured from the current value, so it is not symmetric: a
      rise from 100 to 102 is neutral, a fall from 102 to 100 is not. */
  lemma TrendAsymmetry()
    ensures TrendIndicator(102.0, Some(100.0)) == Neutral
    ensures TrendIndicator(100.0, Some(102.0)) == Down
  {
  }

  /** A ten-percent change either way gives an arrow; a single sample gives none. */
  lemma TrendExamples()
    ensures TrendIndicator(110.0, Some(100.0)) == Up
    ensures TrendIndicator(90.0, Some(100.0)) == Down
    ensures TrendIndicator(50.0, None) == Neutral
  {
  }

  /** A previous reading of exactly 0 counts as no previous reading. */
  lemma ZeroPreviousIsNeutral(current: real)
    ensures TrendIndicator(current, Some(0.0)) == Neutral
  {
  }

  // ---------------------------------------------------------------- colours

  const TextYellow := "text-yellow-500"
  const TextRed := "text-red-500"
  const TextBlue := "text-blue-500"
  const TextGreen := "text-green-500"

  /** `getHeartRateColor`: yellow outside 60-100 bpm, red inside it. */
  function HeartRateColor(rate: real): (c: string)
    ensures c == TextYellow <==> rate < 60.0 || rate > 100.0
    ensures c == TextRed <==> 60.0 <= rate <= 100.0
  {
    if rate < 60.0 || rate > 100.0 then TextYellow else TextRed
  }

  /** `getSpO2Color` as written: the test for 95 comes before the test for 90,
      so every level below 95 is yellow and the red branch is never taken. */
  function SpO2Color(level: real): (c: string)
    ensures c == TextYellow <==> level < 95.0
    ensures c == TextBlue <==> level >= 95.0
  {
    if level < 95.0 then TextYellow
    else if level < 90.0 then TextRed
    else TextBlue
  }

  /** No SpO2 level is ever shown red, not even a level of 85. */
  lemma SpO2NeverRed(level: real)
    ensures SpO2Color(level) != TextRed
    ensures level < 90.0 ==> SpO2Color(level) == TextYellow
  {
  }

  /** The SpO2 colour with the tests in the order the three bands need: red
      below 90, yellow from 90 up to 95, blue from 95. */
  function SpO2ColorIntended(level: real): (c: string)
    ensures c == TextRed <==> level < 90.0
    ensures c == TextYellow <==> 90.0 <= level < 95.0
    ensures c == TextBlue <==> level >= 95.0
  {
    if level < 90.0 then TextRed
    else if level < 95.0 then TextYellow
    else TextBlue
  }

  /** The two agree everywhere except below 90. */
  lemma SpO2ColorsAgreeFrom90(level: real)
    ensures SpO2ColorIntended(level) == SpO2Color(level) <==> level >= 90.0
  {
  }

  /** `getAcetoneColor`: yellow strictly between 2 and 5 ppm, red from 5 ppm
      up, green otherwise (2 ppm itself, and anything below). */
  function AcetoneColor(level: real): (c: string)
    ensures c == TextYellow <==> 2.0 < level < 5.0
    ensures c == TextRed <==> level >= 5.0
    ensures c == TextGreen <==> level <= 2.0
  {
    if level > 2.0 && level < 5.0 then TextYellow
    else if level >= 5.0 then TextRed
    else TextGreen
  }

  // ---------------------------------------------------------------- state slots

  /** The three reading tiles, each showing one field of a sample. */
  datatype Tile = HeartRateTile | SpO2Tile | AcetoneTile

  function Reading(d: HealthData, tile: Tile): real {
    match tile
    case HeartRateTile => d.HeartRate
    case SpO2Tile => d.SpO2
    case AcetoneTile => d.acetone
  }

  /** The component's state: the latest sample, the one shown as "previous"
      for the trend, and the loading flag. `mountedLatest` is the value of the
      latest slot that the listener closed over: it is registered once, on
      mount, when that slot is still empty. */
  class HealthDataCard {
    var latest: Option<HealthData>
    var previous: Option<HealthData>
    var loading: bool
    const mountedLatest: Option<HealthData>
    ghost var history: seq<HealthData>

    /** The latest slot holds the last sample received, and the listener's view
        of it is the empty slot of the first render. */
    ghost predicate Valid()
      reads this
    {
      && mountedLatest == None
      && latest == (if history == [] then None else Some(history[|history| - 1]))
    }

    /** The previous slot holds the sample before the latest one. */
    ghost predicate TracksPrevious()
      reads this
    {
      previous == (if |history| < 2 then None else Some(history[|history| - 2]))
    }

    /** The first render: both slots empty, loading. */
    constructor()
      ensures Valid() && TracksPrevious()
      ensures history == [] && previous == None && loading
    {
      latest := None;
      previous := None;
      loading := true;
      mountedLatest := None;
      history := [];
    }

    /** The snapshot listener as written. The previous slot is set from the
        latest slot the listener closed over, which is always empty, so it
        keeps its value; the latest slot takes the new sample. A snapshot with
        no data changes neither slot. */
    method OnSnapshot(snapshot: Option<HealthData>)
      requires Valid()
      modifies this
      ensures Valid() && !loading
      ensures previous == old(previous)
      ensures snapshot.Some? ==> latest == snapshot && history == old(history) + [snapshot.value]
      ensures snapshot.None? ==> latest == old(latest) && history == old(history)
    {
      loading := true;
      if snapshot.Some? {
        previous := if mountedLatest.Some? then mountedLatest else previous;
        latest := snapshot;
        history := history + [snapshot.value];
      }
      loading := false;
    }

    /** The listener as the update is meant to work, reading the current latest
        slot: the previous slot becomes the old latest sample when there was
        one and is otherwise unchanged, so it keeps tracking the sample before
        the latest. */
    method OnSnapshotIntended(snapshot: Option<HealthData>)
      requires Valid()
      modifies this
      ensures Valid() && !loading
      ensures old(TracksPrevious()) ==> TracksPrevious()
      ensures snapshot.Some? ==> latest == snapshot && history == old(history) + [snapshot.value]
                                 && previous == (if old(latest).Some? then old(latest) else old(previous))
      ensures snapshot.None? ==> latest == old(latest) && previous == old(previous) && history == old(history)
    {
      loading := true;
      if snapshot.Some? {
        previous := if latest.Some? then latest else previous;
        latest := snapshot;
        history := history + [snapshot.value];
      }
      loading := false;
    }

    /** The trend shown on a tile: only when both slots hold a sample. */
    function ShownTrend(tile: Tile): (t: Option<Trend>)
      reads this
      ensures t.Some? <==> latest.Some? && previous.Some?
      ensures t.Some? ==> t.value == TrendIndicator(Reading(latest.value, tile),
                                                    Some(Reading(previous.value, tile)))
    {
      if latest.Some? && previous.Some? then
        Some(TrendIndicator(Reading(latest.value, tile), Some(Reading(previous.value, tile))))
      else
        None
    }
  }

  /** A mounted card fed `samples` by the listener as written: after every
      sample, no tile shows a trend. */
  method WatchAsWritten(samples: seq<HealthData>, tile: Tile) returns (shown: seq<Option<Trend>>)
    ensures |shown| == |samples|
    ensures forall i :: 0 <= i < |shown| ==> shown[i] == None
  {
    var card := new HealthDataCard();
    shown := [];
    for n := 0 to |samples|
      invariant card.Valid() && card.previous == None
      invariant |shown| == n
      invariant forall i :: 0 <= i < n ==> shown[i] == None
    {
      card.OnSnapshot(Some(samples[n]));
      var t := card.ShownTrend(tile);
      shown := shown + [t];
    }
  }

  /** The same card with the intended update: from the second sample on, each
      tile compares each sample with the one before it. */
  method WatchIntended(samples: seq<HealthData>, tile: Tile) returns (shown: seq<Option<Trend>>)
    ensures |shown| == |samples|
    ensures |shown| > 0 ==> shown[0] == None
    ensures forall i :: 0 < i < |shown| ==>
              shown[i] == Some(TrendIndicator(Reading(samples[i], tile), Some(Reading(samples[i - 1], tile))))
  {
    var card := new HealthDataCard();
    shown := [];
    for n := 0 to |samples|
      invariant card.Valid() && card.TracksPrevious()
      invariant card.history == samples[..n]
      invariant |shown| == n
      invariant n > 0 ==> shown[0] == None
      invariant forall i :: 0 < i < n ==>
                  shown[i] == Some(TrendIndicator(Reading(samples[i], tile), Some(Reading(samples[i - 1], tile))))
    {
      card.OnSnapshotIntended(Some(samples[n]));
      assert card.history == samples[..n + 1];
      var t := card.ShownTrend(tile);
      shown := shown + [t];
    }
  }
}
