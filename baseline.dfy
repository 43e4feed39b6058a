/** The historical baseline of is_hotspot: the corpus is filtered to the
    chosen stations (__filter_data), split by calendar date, re-weighted by
    inverse distance within each date, and reduced to one weighted score per
    date; the threshold is the percentile of those scores (find_threshold)
    and the current score is ranked against them (percentileofscore). */
module Baseline {
  import opened Common
  import opened Stats
  import opened Readings
  import opened Stations

  function StationIds(st: seq<Station>): (ids: seq<string>)
    ensures |ids| == |st| && forall a :: 0 <= a < |st| ==> ids[a] == st[a].row.reading.stationId
  {
    seq(|st|, a requires 0 <= a < |st| => st[a].row.reading.stationId)
  }

  /** DATA[DATA["stationId"].isin(ids)]: the rows of those stations, in order. */
  function FilterByStations(data: seq<Scored>, ids: seq<string>): (r: seq<Scored>)
    ensures |r| <= |data|
  {
    if |data| == 0 then []
    else (if data[0].reading.stationId in ids then [data[0]] else []) + FilterByStations(data[1..], ids)
  }

  /** A row is kept exactly when it is a corpus row of a chosen station. */
  lemma {:induction false} FilterMembers(data: seq<Scored>, ids: seq<string>)
    ensures forall x :: x in FilterByStations(data, ids) <==> x in data && x.reading.stationId in ids
  {
    if |data| > 0 {
      FilterMembers(data[1..], ids);
      assert data == [data[0]] + data[1..];
    }
  }

  /** Filtering keeps the corpus order: it distributes over concatenation. */
  lemma {:induction false} FilterAppend(a: seq<Scored>, b: seq<Scored>, ids: seq<string>)
    ensures FilterByStations(a + b, ids) == FilterByStations(a, ids) + FilterByStations(b, ids)
  {
    if |a| == 0 {
      assert a + b == b;
    } else {
      var head := if a[0].reading.stationId in ids then [a[0]] else [];
      assert (a + b)[0] == a[0];
      assert (a + b)[1..] == a[1..] + b;
      assert FilterByStations(a + b, ids) == head + FilterByStations(a[1..] + b, ids);
      assert FilterByStations(a, ids) == head + FilterByStations(a[1..], ids);
      FilterAppend(a[1..], b, ids);
    }
  }

  // -----------------------------------------------------------------------
  // groupby("date")
  // -----------------------------------------------------------------------

  function DatesOf(rows: seq<Scored>): (ds: seq<string>)
    ensures |ds| == |rows| && forall i :: 0 <= i < |rows| ==> ds[i] == rows[i].reading.date
  {
    seq(|rows|, i requires 0 <= i < |rows| => rows[i].reading.date)
  }

  /** The distinct values of xs in order of first appearance. */
  function Dedup(xs: seq<string>): (d: seq<string>)
    ensures forall x :: x in d <==> x in xs
    ensures forall a, b :: 0 <= a < b < |d| ==> d[a] != d[b]
  {
    if |xs| == 0 then []
    else
      var rest := Dedup(xs[..|xs| - 1]);
      assert forall x :: x in xs <==> x in xs[..|xs| - 1] || x == xs[|xs| - 1] by {
        assert xs == xs[..|xs| - 1] + [xs[|xs| - 1]];
      }
      if xs[|xs| - 1] in rest then rest else rest + [xs[|xs| - 1]]
  }

  /** The group keys: every date of the filtered rows, once each. */
  function GroupKeys(rows: seq<Scored>): seq<string> {
    Dedup(DatesOf(rows))
  }

  /** The rows of one date, in order. */
  function GroupOf(rows: seq<Scored>, d: string): (g: seq<Scored>)
    ensures forall x :: x in g <==> x in rows && x.reading.date == d
  {
    if |rows| == 0 then []
    else
      assert rows == [rows[0]] + rows[1..];
      (if rows[0].reading.date == d then [rows[0]] else []) + GroupOf(rows[1..], d)
  }

  function HeatNorms(rows: seq<Scored>): (hs: seq<real>)
    ensures |hs| == |rows| && forall i :: 0 <= i < |rows| ==> hs[i] == rows[i].heatScoreNorm
  {
    seq(|rows|, i requires 0 <= i < |rows| => rows[i].heatScoreNorm)
  }

  /** weighted_heat_score(group): weights over the group's own distances,
      then the dot product with its heat_score_norm column. */
  function DayScore(group: seq<Scored>, lat: real, lon: real, geo: Metric): (r: Result<real>)
    ensures r.Err? <==> 0.0 in Distances(group, lat, lon, geo)
    ensures r.Err? ==> r.error == ZeroDistance
  {
    var ws :- Weights(Distances(group, lat, lon, geo));
    Ok(Dot(ws, HeatNorms(group)))
  }

  predicate AllDaysScored(rows: seq<Scored>, lat: real, lon: real, geo: Metric) {
    forall t :: 0 <= t < |GroupKeys(rows)| ==> DayScore(GroupOf(rows, GroupKeys(rows)[t]), lat, lon, geo).Ok?
  }

  /** The per-date series: one score per group key, in key order. */
  function DailyScores(rows: seq<Scored>, lat: real, lon: real, geo: Metric): (r: Result<seq<real>>)
    ensures r.Ok? <==> AllDaysScored(rows, lat, lon, geo)
    ensures r.Err? ==> r.error == ZeroDistance
    ensures r.Ok? ==> |r.value| == |GroupKeys(rows)|
    ensures r.Ok? ==> forall t :: 0 <= t < |r.value| ==>
      r.value[t] == DayScore(GroupOf(rows, GroupKeys(rows)[t]), lat, lon, geo).value
  {
    var keys := GroupKeys(rows);
    if AllDaysScored(rows, lat, lon, geo) then
      Ok(seq(|keys|, t requires 0 <= t < |keys| => DayScore(GroupOf(rows, keys[t]), lat, lon, geo).value))
    else Err(ZeroDistance)
  }

  /** The dictionary is_hotspot returns. */
  datatype HotspotResult = HotspotResult(isHotspot: bool, weightedScore: real,
                                         heatThreshold: real, percentile: real)

  /** The hotspot decision for a selection of nearest stations. */
  function Hotspot(data: seq<Scored>, nearest: seq<Station>, lat: real, lon: real,
                   p: int, geo: Metric): (r: Result<HotspotResult>)
    ensures r.Ok? ==> (r.value.isHotspot <==> r.value.weightedScore > r.value.heatThreshold)
    ensures r.Ok? ==> r.value.weightedScore == WeightedHeatScore(nearest)
  {
    var ws := WeightedHeatScore(nearest);
    var hist := FilterByStations(data, StationIds(nearest));
    var scores :- DailyScores(hist, lat, lon, geo);
    var thr :- Percentile(scores, p);
    PercentileErrors(scores, p);
    Ok(HotspotResult(ws > thr, ws, thr, PercentileOfScore(scores, ws)))
  }

  // -----------------------------------------------------------------------
  // What the baseline promises
  // -----------------------------------------------------------------------

  /** Every group key names a non-empty group, and the keys are exactly the
      dates of the filtered rows, each once. */
  lemma GroupsPartition(rows: seq<Scored>)
    ensures forall a, b :: 0 <= a < b < |GroupKeys(rows)| ==> GroupKeys(rows)[a] != GroupKeys(rows)[b]
    ensures forall d :: d in GroupKeys(rows) <==> exists i :: 0 <= i < |rows| && rows[i].reading.date == d
    ensures forall t :: 0 <= t < |GroupKeys(rows)| ==> |GroupOf(rows, GroupKeys(rows)[t])| > 0
  {
    var keys := GroupKeys(rows);
    forall d ensures d in keys <==> exists i :: 0 <= i < |rows| && rows[i].reading.date == d {
      if d in keys {
        assert d in DatesOf(rows);
        var i :| 0 <= i < |rows| && DatesOf(rows)[i] == d;
      }
      if exists i :: 0 <= i < |rows| && rows[i].reading.date == d {
        var i :| 0 <= i < |rows| && rows[i].reading.date == d;
        assert DatesOf(rows)[i] == d;
      }
    }
    forall t | 0 <= t < |keys| ensures |GroupOf(rows, keys[t])| > 0 {
      assert keys[t] in keys;
      var i :| 0 <= i < |rows| && rows[i].reading.date == keys[t];
      assert rows[i] in GroupOf(rows, keys[t]);
    }
  }

  /** Within a date the weights are renormalised: they sum to 1, so the
      day's score lies between the least and greatest heat_score_norm of
      that day's rows. */
  lemma DayScoreBetween(group: seq<Scored>, lat: real, lon: real, geo: Metric)
    requires |group| > 0 && DayScore(group, lat, lon, geo).Ok?
    ensures Sum(Weights(Distances(group, lat, lon, geo)).value) == 1.0
    ensures Min(HeatNorms(group)) <= DayScore(group, lat, lon, geo).value <= Max(HeatNorms(group))
  {
    var ds := Distances(group, lat, lon, geo);
    WeightsSumToOne(ds);
    ConvexCombination(Weights(ds).value, HeatNorms(group));
  }

  /** A successful decision: the threshold lies between the least and the
      greatest daily score, the percentile rank lies in [0, 100], and the
      daily series has one score per distinct date of the filtered rows. */
  lemma HotspotSpec(data: seq<Scored>, nearest: seq<Station>, lat: real, lon: real, p: int, geo: Metric)
    requires Hotspot(data, nearest, lat, lon, p, geo).Ok?
    ensures var hist := FilterByStations(data, StationIds(nearest));
            var scores := DailyScores(hist, lat, lon, geo);
            var r := Hotspot(data, nearest, lat, lon, p, geo).value;
            && scores.Ok? && |scores.value| == |GroupKeys(hist)| > 0
            && Min(scores.value) <= r.heatThreshold <= Max(scores.value)
            && r.heatThreshold == Percentile(scores.value, p).value
            && 0.0 <= r.percentile <= 100.0
            && r.percentile == PercentileOfScore(scores.value, r.weightedScore)
  {
    var hist := FilterByStations(data, StationIds(nearest));
    var scores := DailyScores(hist, lat, lon, geo).value;
    PercentileErrors(scores, p);
    PercentileBetween(scores, p);
    PercentileOfScoreRange(scores, WeightedHeatScore(nearest));
  }

  /** The error paths: no history for the chosen stations is numpy's empty
      percentile, a percentile outside [0, 100] is rejected first. */
  lemma HotspotErrors(data: seq<Scored>, nearest: seq<Station>, lat: real, lon: real, p: int, geo: Metric)
    ensures var hist := FilterByStations(data, StationIds(nearest));
            && (DailyScores(hist, lat, lon, geo).Ok? && !(0 <= p <= 100) ==>
                  Hotspot(data, nearest, lat, lon, p, geo) == Err(PercentileOutOfRange))
            && (|hist| == 0 && 0 <= p <= 100 ==>
                  Hotspot(data, nearest, lat, lon, p, geo) == Err(EmptyHistory))
  {
    var hist := FilterByStations(data, StationIds(nearest));
    var scores := DailyScores(hist, lat, lon, geo);
    if scores.Ok? {
      PercentileErrors(scores.value, p);
    }
    if |hist| == 0 {
      assert GroupKeys(hist) == [];
      assert scores == Ok([]);
      PercentileErrors([], p);
    }
  }

  /** Only corpus rows of chosen stations reach the baseline. */
  lemma HistoryFromChosenStations(data: seq<Scored>, nearest: seq<Station>, x: Scored)
    ensures x in FilterByStations(data, StationIds(nearest)) <==>
            x in data && exists a :: 0 <= a < |nearest| && nearest[a].row.reading.stationId == x.reading.stationId
  {
    FilterMembers(data, StationIds(nearest));
    var ids := StationIds(nearest);
    if x.reading.stationId in ids {
      var a :| 0 <= a < |ids| && ids[a] == x.reading.stationId;
    }
  }

  /** groupby("date").apply(weighted_heat_score): one pass over the group
      keys, stopping at the first day whose weights fail. */
  method DailyScoresLoop(rows: seq<Scored>, lat: real, lon: real, geo: Metric) returns (r: Result<seq<real>>)
    ensures r == DailyScores(rows, lat, lon, geo)
  {
    var keys := GroupKeys(rows);
    var scores: seq<real> := [];
    var t := 0;
    while t < |keys|
      invariant 0 <= t <= |keys| && |scores| == t
      invariant forall u :: 0 <= u < t ==> DayScore(GroupOf(rows, keys[u]), lat, lon, geo) == Ok(scores[u])
    {
      var day := DayScore(GroupOf(rows, keys[t]), lat, lon, geo);
      if day.Err? {
        DailyScoresFail(rows, lat, lon, geo, t);
        return Err(day.error);
      }
      ScoresExtend(rows, lat, lon, geo, scores, day.value);
      scores := scores + [day.value];
      t := t + 1;
    }
    DailyScoresFromDays(rows, lat, lon, geo, scores);
    r := Ok(scores);
  }

  lemma ScoresExtend(rows: seq<Scored>, lat: real, lon: real, geo: Metric, scores: seq<real>, v: real)
    requires |scores| < |GroupKeys(rows)|
    requires forall u :: 0 <= u < |scores| ==> DayScore(GroupOf(rows, GroupKeys(rows)[u]), lat, lon, geo) == Ok(scores[u])
    requires DayScore(GroupOf(rows, GroupKeys(rows)[|scores|]), lat, lon, geo) == Ok(v)
    ensures forall u :: 0 <= u < |scores| + 1 ==>
      DayScore(GroupOf(rows, GroupKeys(rows)[u]), lat, lon, geo) == Ok((scores + [v])[u])
  {
    forall u | 0 <= u < |scores| + 1
      ensures DayScore(GroupOf(rows, GroupKeys(rows)[u]), lat, lon, geo) == Ok((scores + [v])[u])
    {
      if u < |scores| {
        assert (scores + [v])[u] == scores[u];
      }
    }
  }

  lemma DailyScoresFail(rows: seq<Scored>, lat: real, lon: real, geo: Metric, t: int)
    requires 0 <= t < |GroupKeys(rows)|
    requires DayScore(GroupOf(rows, GroupKeys(rows)[t]), lat, lon, geo).Err?
    ensures DailyScores(rows, lat, lon, geo) == Err(ZeroDistance)
  {
    assert !AllDaysScored(rows, lat, lon, geo);
  }

  lemma DailyScoresFromDays(rows: seq<Scored>, lat: real, lon: real, geo: Metric, scores: seq<real>)
    requires |scores| == |GroupKeys(rows)|
    requires forall u :: 0 <= u < |scores| ==> DayScore(GroupOf(rows, GroupKeys(rows)[u]), lat, lon, geo) == Ok(scores[u])
    ensures DailyScores(rows, lat, lon, geo) == Ok(scores)
  {
    assert AllDaysScored(rows, lat, lon, geo);
    var d := DailyScores(rows, lat, lon, geo).value;
    assert |d| == |scores|;
    forall u | 0 <= u < |scores| ensures d[u] == scores[u] {
      assert DayScore(GroupOf(rows, GroupKeys(rows)[u]), lat, lon, geo) == Ok(scores[u]);
    }
    assert d == scores;
  }
}
