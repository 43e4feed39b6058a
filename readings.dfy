/** Station readings as fixed-shape rows, and the two-stage normalization of
    WeatherAnalyzer._process_weather_data: the three raw features are scaled,
    heat_score = airTemp_norm + humidity_norm - windSpeed_norm is derived,
    and heat_score is scaled by a second scaler into heat_score_norm. */
module Readings {
  import opened Common
  import opened Stats
  import opened Scaling

  /** One row of the station frame. windDirection is the compass label the
      live feed adds; date is the calendar day of a historical reading. */
  datatype Reading = Reading(
    stationId: string,
    latitude: real,
    longitude: real,
    airTemp: real,
    humidity: real,
    windSpeed: real,
    windDirection: Option<string>,
    date: string)

  /** A reading with the columns _process_weather_data adds. */
  datatype Scored = Scored(
    reading: Reading,
    airTempNorm: real,
    humidityNorm: real,
    windSpeedNorm: real,
    heatScore: real,
    heatScoreNorm: real)

  /** The fitted minima and maxima of both scalers: three features, then the
      single heat_score feature. */
  datatype Models = Models(featureMin: seq<real>, featureMax: seq<real>,
                           heatMin: seq<real>, heatMax: seq<real>)

  predicate WellFormed(m: Models) {
    && |m.featureMin| == |m.featureMax| == 3
    && |m.heatMin| == |m.heatMax| == 1
    && (forall j :: 0 <= j < 3 ==> m.featureMin[j] <= m.featureMax[j])
    && m.heatMin[0] <= m.heatMax[0]
  }

  /** The matrix df[["airTemp", "humidity", "windSpeed"]]. */
  function Features(df: seq<Reading>): (x: seq<seq<real>>)
    ensures |x| == |df| && Rectangular(x, 3)
    ensures forall i :: 0 <= i < |df| ==>
      x[i] == [df[i].airTemp, df[i].humidity, df[i].windSpeed]
  {
    seq(|df|, i requires 0 <= i < |df| => [df[i].airTemp, df[i].humidity, df[i].windSpeed])
  }

  /** The matrix df[["heat_score"]] computed from the normalized features. */
  function HeatColumn(norms: seq<seq<real>>): (h: seq<seq<real>>)
    requires Rectangular(norms, 3)
    ensures |h| == |norms| && Rectangular(h, 1)
    ensures forall i :: 0 <= i < |norms| ==> h[i] == [norms[i][0] + norms[i][1] - norms[i][2]]
  {
    seq(|norms|, i requires 0 <= i < |norms| => [norms[i][0] + norms[i][1] - norms[i][2]])
  }

  /** The frame with its new columns, from the two transformed matrices. */
  function Assemble(df: seq<Reading>, norms: seq<seq<real>>, heatNorms: seq<seq<real>>): seq<Scored>
    requires |norms| == |heatNorms| == |df| && Rectangular(norms, 3) && Rectangular(heatNorms, 1)
  {
    seq(|df|, i requires 0 <= i < |df| =>
      Scored(df[i], norms[i][0], norms[i][1], norms[i][2],
             norms[i][0] + norms[i][1] - norms[i][2], heatNorms[i][0]))
  }

  /** One row scaled by given models: the reference for the whole pipeline. */
  function ScoreRow(r: Reading, m: Models): (s: Scored)
    requires WellFormed(m)
    ensures s.reading == r
    ensures s.heatScore == s.airTempNorm + s.humidityNorm - s.windSpeedNorm
  {
    var a := Scale(r.airTemp, m.featureMin[0], m.featureMax[0]);
    var h := Scale(r.humidity, m.featureMin[1], m.featureMax[1]);
    var w := Scale(r.windSpeed, m.featureMin[2], m.featureMax[2]);
    Scored(r, a, h, w, a + h - w, Scale(a + h - w, m.heatMin[0], m.heatMax[0]))
  }

  function Normalize(df: seq<Reading>, m: Models): (rows: seq<Scored>)
    requires WellFormed(m)
    ensures |rows| == |df|
    ensures forall i :: 0 <= i < |df| ==> rows[i] == ScoreRow(df[i], m)
  {
    seq(|df|, i requires 0 <= i < |df| => ScoreRow(df[i], m))
  }

  /** heat_score of one reading under fitted feature minima and maxima. */
  function FittedHeat(r: Reading, lo: seq<real>, hi: seq<real>): real
    requires |lo| == |hi| == 3
  {
    Scale(r.airTemp, lo[0], hi[0]) + Scale(r.humidity, lo[1], hi[1]) - Scale(r.windSpeed, lo[2], hi[2])
  }

  function HeatScoresWith(df: seq<Reading>, lo: seq<real>, hi: seq<real>): (hs: seq<real>)
    requires |lo| == |hi| == 3
    ensures |hs| == |df| && forall i :: 0 <= i < |df| ==> hs[i] == FittedHeat(df[i], lo, hi)
  {
    seq(|df|, i requires 0 <= i < |df| => FittedHeat(df[i], lo, hi))
  }

  /** The models the historical branch fits: scaler on the raw features,
      then scaler_heat on the heat_score those scaled features give. */
  function HistoricalModels(df: seq<Reading>): (m: Models)
    requires |df| > 0
    ensures WellFormed(m)
  {
    var x := Features(df);
    var lo, hi := ColumnMins(x, 3), ColumnMaxs(x, 3);
    FittedRangesOrdered(x, 3);
    var hs := HeatScoresWith(df, lo, hi);
    assert Min(hs) <= hs[0] <= Max(hs);
    Models(lo, hi, [Min(hs)], [Max(hs)])
  }

  /** The heat_score column of the corpus under its own fit. */
  function HeatScores(df: seq<Reading>): (hs: seq<real>)
    requires |df| > 0
    ensures |hs| == |df|
  {
    HeatScoresWith(df, HistoricalModels(df).featureMin, HistoricalModels(df).featureMax)
  }

  /** The matrix scaler_heat is fitted on holds exactly these heat scores. */
  lemma HeatColumnFit(df: seq<Reading>, lo: seq<real>, hi: seq<real>)
    requires |df| > 0 && |lo| == |hi| == 3
    ensures var h := HeatColumn(TransformRows(Features(df), lo, hi));
            && ColumnMins(h, 1) == [Min(HeatScoresWith(df, lo, hi))]
            && ColumnMaxs(h, 1) == [Max(HeatScoresWith(df, lo, hi))]
  {
    var h := HeatColumn(TransformRows(Features(df), lo, hi));
    assert Column(h, 0) == HeatScoresWith(df, lo, hi);
  }

  lemma FittedRangesOrdered(x: seq<seq<real>>, w: nat)
    requires |x| > 0 && Rectangular(x, w)
    ensures forall j :: 0 <= j < w ==> ColumnMins(x, w)[j] <= ColumnMaxs(x, w)[j]
  {
    forall j | 0 <= j < w ensures ColumnMins(x, w)[j] <= ColumnMaxs(x, w)[j] {
      var c := Column(x, j);
      assert Min(c) <= c[0] <= Max(c);
    }
  }

  /** What the two transformed matrices assemble to is Normalize. */
  lemma AssembleNormalizes(df: seq<Reading>, m: Models)
    requires WellFormed(m)
    ensures var norms := TransformRows(Features(df), m.featureMin, m.featureMax);
            Assemble(df, norms, TransformRows(HeatColumn(norms), m.heatMin, m.heatMax))
              == Normalize(df, m)
  {
  }

  // -----------------------------------------------------------------------
  // The historical branch on its own corpus
  // -----------------------------------------------------------------------

  /** Feature j of every row: 0 airTemp, 1 humidity, 2 windSpeed. */
  function FeatureColumn(df: seq<Reading>, j: int): (c: seq<real>)
    requires 0 <= j < 3
    ensures |c| == |df|
  {
    seq(|df|, i requires 0 <= i < |df| =>
      if j == 0 then df[i].airTemp else if j == 1 then df[i].humidity else df[i].windSpeed)
  }

  function NormOf(s: Scored, j: int): real
    requires 0 <= j < 3
  {
    if j == 0 then s.airTempNorm else if j == 1 then s.humidityNorm else s.windSpeedNorm
  }

  /** On the corpus it was fitted on, every *_norm column lies in [0, 1]; a
      column's minimum maps to 0, its maximum to 1, a constant column to 0. */
  lemma {:induction false} HistoricalFeatureNorms(df: seq<Reading>, i: int, j: int)
    requires 0 <= i < |df| && 0 <= j < 3
    ensures var s := Normalize(df, HistoricalModels(df))[i];
            var c := FeatureColumn(df, j);
            && 0.0 <= NormOf(s, j) <= 1.0
            && (c[i] == Min(c) ==> NormOf(s, j) == 0.0)
            && (c[i] == Max(c) && Min(c) < Max(c) ==> NormOf(s, j) == 1.0)
            && (Min(c) == Max(c) ==> NormOf(s, j) == 0.0)
  {
    var m := HistoricalModels(df);
    var c := FeatureColumn(df, j);
    FeatureModelIsColumnRange(df, j);
    NormOfScoreRow(df[i], m, j);
    FittedColumn(c, i);
  }

  lemma FeatureModelIsColumnRange(df: seq<Reading>, j: int)
    requires |df| > 0 && 0 <= j < 3
    ensures HistoricalModels(df).featureMin[j] == Min(FeatureColumn(df, j))
    ensures HistoricalModels(df).featureMax[j] == Max(FeatureColumn(df, j))
  {
    assert Column(Features(df), j) == FeatureColumn(df, j);
  }

  lemma NormOfScoreRow(r: Reading, m: Models, j: int)
    requires WellFormed(m) && 0 <= j < 3
    ensures NormOf(ScoreRow(r, m), j) == Scale(FeatureColumn([r], j)[0], m.featureMin[j], m.featureMax[j])
  {
  }

  /** The same for heat_score_norm against the heat_score column. */
  lemma {:induction false} HistoricalHeatNorm(df: seq<Reading>, i: int)
    requires 0 <= i < |df|
    ensures var s := Normalize(df, HistoricalModels(df))[i];
            var c := HeatScores(df);
            && 0.0 <= s.heatScoreNorm <= 1.0
            && (c[i] == Min(c) ==> s.heatScoreNorm == 0.0)
            && (c[i] == Max(c) && Min(c) < Max(c) ==> s.heatScoreNorm == 1.0)
            && (Min(c) == Max(c) ==> s.heatScoreNorm == 0.0)
  {
    var m := HistoricalModels(df);
    var c := HeatScores(df);
    HeatModelIsColumnRange(df);
    HeatOfScoreRow(df[i], m);
    FittedColumn(c, i);
  }

  lemma HeatModelIsColumnRange(df: seq<Reading>)
    requires |df| > 0
    ensures HistoricalModels(df).heatMin == [Min(HeatScores(df))]
    ensures HistoricalModels(df).heatMax == [Max(HeatScores(df))]
  {
  }

  lemma HeatOfScoreRow(r: Reading, m: Models)
    requires WellFormed(m)
    ensures ScoreRow(r, m).heatScore == FittedHeat(r, m.featureMin, m.featureMax)
    ensures ScoreRow(r, m).heatScoreNorm == Scale(ScoreRow(r, m).heatScore, m.heatMin[0], m.heatMax[0])
  {
  }

  // -----------------------------------------------------------------------
  // Heat score semantics under any fitted models
  // -----------------------------------------------------------------------

  /** Hotter air, humidity and wind fixed: a strictly higher heat_score and
      heat_score_norm, inside or outside the fitted ranges. */
  lemma HeatRisesWithTemperature(m: Models, a: Reading, b: Reading)
    requires WellFormed(m)
    requires a.humidity == b.humidity && a.windSpeed == b.windSpeed && a.airTemp < b.airTemp
    ensures ScoreRow(a, m).heatScore < ScoreRow(b, m).heatScore
    ensures ScoreRow(a, m).heatScoreNorm < ScoreRow(b, m).heatScoreNorm
  {
    ScaleStrictlyIncreasing(a.airTemp, b.airTemp, m.featureMin[0], m.featureMax[0]);
    ScaleStrictlyIncreasing(ScoreRow(a, m).heatScore, ScoreRow(b, m).heatScore, m.heatMin[0], m.heatMax[0]);
  }

  /** Stronger wind, temperature and humidity fixed: a strictly lower heat_score
      and heat_score_norm. */
  lemma HeatFallsWithWind(m: Models, a: Reading, b: Reading)
    requires WellFormed(m)
    requires a.airTemp == b.airTemp && a.humidity == b.humidity && a.windSpeed < b.windSpeed
    ensures ScoreRow(b, m).heatScore < ScoreRow(a, m).heatScore
    ensures ScoreRow(b, m).heatScoreNorm < ScoreRow(a, m).heatScoreNorm
  {
    ScaleStrictlyIncreasing(a.windSpeed, b.windSpeed, m.featureMin[2], m.featureMax[2]);
    ScaleStrictlyIncreasing(ScoreRow(b, m).heatScore, ScoreRow(a, m).heatScore, m.heatMin[0], m.heatMax[0]);
  }

  // -----------------------------------------------------------------------
  // _process_weather_data on the two scaler objects
  // -----------------------------------------------------------------------

  /** The two scalers as _process_weather_data leaves them: scaler is fitted
      on the three features, scaler_heat on the single heat_score, and
      scaler is only ever fitted together with scaler_heat. */
  ghost predicate ScalerPair(scaler: MinMaxScaler, scalerHeat: MinMaxScaler)
    reads scaler, scalerHeat
  {
    && scaler != scalerHeat
    && scaler.Valid() && scalerHeat.Valid()
    && (scalerHeat.fitted ==> |scalerHeat.dataMin| == 1)
    && (scaler.fitted ==> |scaler.dataMin| == 3 && scalerHeat.fitted)
  }

  /** The models the two fitted scalers hold. */
  function FittedModels(scaler: MinMaxScaler, scalerHeat: MinMaxScaler): (m: Models)
    reads scaler, scalerHeat
    requires ScalerPair(scaler, scalerHeat) && scaler.fitted
    ensures WellFormed(m)
    ensures m.featureMin == scaler.dataMin && m.heatMin == scalerHeat.dataMin
  {
    Models(scaler.dataMin, scaler.dataMax, scalerHeat.dataMin, scalerHeat.dataMax)
  }

  /** _process_weather_data(df, historical). The historical branch refits
      both scalers on df; the current branch only transforms with them. */
  method ProcessFrame(scaler: MinMaxScaler, scalerHeat: MinMaxScaler, df: seq<Reading>, historical: bool)
    returns (r: Result<seq<Scored>>)
    requires ScalerPair(scaler, scalerHeat)
    modifies scaler, scalerHeat
    ensures ScalerPair(scaler, scalerHeat)
    ensures historical && |df| > 0 ==>
      && scaler.fitted
      && FittedModels(scaler, scalerHeat) == HistoricalModels(df)
      && r == Ok(Normalize(df, HistoricalModels(df)))
    ensures historical && |df| == 0 ==>
      r == Err(EmptyInput) && !scaler.fitted && unchanged(scalerHeat)
    ensures !historical ==> unchanged(scaler, scalerHeat)
    ensures !historical && !old(scaler.fitted) ==> r == Err(NotFitted)
    ensures !historical && old(scaler.fitted) && |df| == 0 ==> r == Err(EmptyInput)
    ensures !historical && old(scaler.fitted) && |df| > 0 ==>
      r == Ok(Normalize(df, FittedModels(scaler, scalerHeat)))
  {
    var x := Features(df);
    if historical {
      var norms := scaler.FitTransform(x);
      if norms.Err? {
        return Err(norms.error);
      }
      var h := HeatColumn(norms.value);
      var heatNorms := scalerHeat.FitTransform(h);
      assert heatNorms.Ok?;
      HeatColumnFit(df, scaler.dataMin, scaler.dataMax);
      assert FittedModels(scaler, scalerHeat) == HistoricalModels(df);
      AssembleNormalizes(df, HistoricalModels(df));
      r := Ok(Assemble(df, norms.value, heatNorms.value));
    } else {
      var norms := scaler.Transform(x);
      if norms.Err? {
        return Err(norms.error);
      }
      var heatNorms := scalerHeat.Transform(HeatColumn(norms.value));
      AssembleNormalizes(df, FittedModels(scaler, scalerHeat));
      r := Ok(Assemble(df, norms.value, heatNorms.value));
    }
  }
}
