/** WeatherAnalyzer of analytics/data_refactored.py. It keeps the pipeline
    of the first analyzer but takes the user's location from a postal-code
    lookup stored on the object (self.LAT, self.LON), writes the distance
    column into the frame it is given, and always ranks three stations in
    is_hotspot. The lookup itself goes over HTTP and is a parameter. */
module DataRefactored {
  import opened Common
  import opened Stats
  import opened Scaling
  import opened Readings
  import opened Stations
  import opened Baseline
  import opened WeatherService

  /** num_stations in is_hotspot. */
  const HOTSPOT_STATIONS: int := 3

  /** A data frame whose distance column is added in place. */
  class Frame {
    var rows: seq<Scored>
    var distance: Option<seq<real>>

    constructor (rows: seq<Scored>)
      ensures this.rows == rows && distance == None
    {
      this.rows := rows;
      distance := None;
    }
  }

  class WeatherAnalyzer {
    const scaler: MinMaxScaler
    const scalerHeat: MinMaxScaler
    var DATA: seq<Scored>
    var CURRENT: Option<seq<Scored>>
    var date: int
    /** (self.LAT, self.LON); None until set_location succeeds. */
    var location: Option<(real, real)>

    ghost predicate Valid()
      reads this, scaler, scalerHeat
    {
      ScalerPair(scaler, scalerHeat)
    }

    constructor ()
      ensures Valid() && fresh(scaler) && fresh(scalerHeat)
      ensures !scaler.fitted && !scalerHeat.fitted
      ensures DATA == [] && CURRENT == None && location == None
    {
      scaler := new MinMaxScaler();
      scalerHeat := new MinMaxScaler();
      DATA := [];
      CURRENT := None;
      date := 0;
      location := None;
    }

    /** _load_and_process_historical_data. */
    method LoadHistorical(historical: seq<Reading>) returns (r: Result<seq<Scored>>)
      requires Valid()
      modifies scaler, scalerHeat
      ensures Valid()
      ensures |historical| == 0 ==> r == Err(EmptyInput) && !scaler.fitted
      ensures |historical| > 0 ==>
        && r == Ok(Normalize(historical, HistoricalModels(historical)))
        && scaler.fitted
        && FittedModels(scaler, scalerHeat) == HistoricalModels(historical)
    {
      r := ProcessFrame(scaler, scalerHeat, historical, true);
    }

    /** The rest of __init__; no location is set. */
    method Init(historical: seq<Reading>, now: int, fetched: seq<Reading>) returns (r: Result<()>)
      requires Valid()
      modifies this, scaler, scalerHeat
      ensures Valid() && location == old(location)
      ensures |historical| == 0 ==> r == Err(EmptyInput) && !scaler.fitted
      ensures |historical| > 0 ==>
        && DATA == Normalize(historical, HistoricalModels(historical))
        && scaler.fitted
        && FittedModels(scaler, scalerHeat) == HistoricalModels(historical)
        && date == now
      ensures |historical| > 0 && |fetched| == 0 ==> r == Err(EmptyInput) && CURRENT == None
      ensures |historical| > 0 && |fetched| > 0 ==>
        r == Ok(()) && CURRENT == Some(Normalize(fetched, HistoricalModels(historical)))
    {
      var data := LoadHistorical(historical);
      if data.Err? {
        return Err(data.error);
      }
      DATA := data.value;
      CURRENT := None;
      date := now;
      var current := GetCurrentWeather(now, fetched);
      if current.Err? {
        return Err(current.error);
      }
      r := Ok(());
    }

    /** get_current_weather, with the same cache condition as the first
        analyzer. */
    method GetCurrentWeather(now: int, fetched: seq<Reading>) returns (r: Result<seq<Scored>>)
      requires Valid()
      modifies this, scaler, scalerHeat
      ensures Valid() && unchanged(scaler, scalerHeat)
      ensures DATA == old(DATA) && date == old(date) && location == old(location)
      ensures !Refetch(old(CURRENT), old(date), now) ==>
        r == Ok(old(CURRENT).value) && CURRENT == old(CURRENT)
      ensures Refetch(old(CURRENT), old(date), now) ==>
        && r == CurrentScores(scaler, scalerHeat, fetched)
        && CURRENT == (if r.Ok? then Some(r.value) else old(CURRENT))
    {
      if CURRENT.None? || date - now > CACHE_TTL {
        var current := ProcessFrame(scaler, scalerHeat, fetched, false);
        if current.Err? {
          return Err(current.error);
        }
        CURRENT := Some(current.value);
      }
      r := Ok(CURRENT.value);
    }

    /** set_location: the lookup's coordinates, or ValueError when the
        postal code was not found (the old location then stays). */
    method SetLocation(found: Option<(real, real)>) returns (r: Result<()>)
      modifies this
      ensures DATA == old(DATA) && CURRENT == old(CURRENT) && date == old(date)
      ensures found.Some? ==> r == Ok(()) && location == found
      ensures found.None? ==> r == Err(LocationNotFound) && location == old(location)
    {
      if found.None? {
        return Err(LocationNotFound);
      }
      location := found;
      r := Ok(());
    }

    /** __compute_distance: writes the distance from (LAT, LON) to every row
        into df; without a location the attribute lookup fails. */
    method ComputeDistance(df: Frame, geo: Metric) returns (r: Result<()>)
      modifies df
      ensures df.rows == old(df.rows)
      ensures location.None? ==> r == Err(NoLocation) && df.distance == old(df.distance)
      ensures location.Some? ==>
        r == Ok(()) && df.distance == Some(Distances(df.rows, location.value.0, location.value.1, geo))
    {
      if location.None? {
        return Err(NoLocation);
      }
      var (lat, lon) := location.value;
      df.distance := Some(Distances(df.rows, lat, lon, geo));
      r := Ok(());
    }

    /** find_nearest_stations: measure df in place, keep the k smallest
        distances of its column, weight them. */
    method FindNearestStations(df: Frame, k: int, geo: Metric) returns (r: Result<seq<Station>>)
      modifies df
      ensures df.rows == old(df.rows)
      ensures location.None? ==> r == Err(NoLocation) && df.distance == old(df.distance)
      ensures location.Some? ==>
        && df.distance == Some(Distances(df.rows, location.value.0, location.value.1, geo))
        && r == Nearest(df.rows, location.value.0, location.value.1, k, geo)
    {
      var measured := ComputeDistance(df, geo);
      if measured.Err? {
        return Err(measured.error);
      }
      var ds := df.distance.value;
      var sel := SelectNearest(ds, k);
      var pds := Pick(ds, sel);
      var ws := Weights(pds);
      if ws.Err? {
        return Err(ws.error);
      }
      var rows := df.rows;
      r := Ok(seq(|sel|, a requires 0 <= a < |sel| => Station(rows[sel[a]], pds[a], ws.value[a])));
    }

    /** filter_data: the corpus rows of the chosen stations. */
    function FilterData(nearest: seq<Station>): (rows: seq<Scored>)
      reads this
      ensures forall x :: x in rows <==> x in DATA && x.reading.stationId in StationIds(nearest)
    {
      FilterMembers(DATA, StationIds(nearest));
      FilterByStations(DATA, StationIds(nearest))
    }

    /** is_hotspot: the three nearest rows of df, then the decision of the
        first analyzer measured from (LAT, LON). The per-date weights use the
        distances __compute_distance writes into the filtered corpus. */
    method IsHotspot(df: Frame, p: int, geo: Metric) returns (r: Result<HotspotResult>)
      modifies df
      ensures df.rows == old(df.rows)
      ensures location.None? ==> r == Err(NoLocation) && df.distance == old(df.distance)
      ensures location.Some? ==> df.distance == Some(Distances(df.rows, location.value.0, location.value.1, geo))
      ensures location.Some? ==>
        var (lat, lon) := location.value;
        r == match Nearest(df.rows, lat, lon, HOTSPOT_STATIONS, geo)
             case Err(e) => Err(e)
             case Ok(nearest) => Hotspot(DATA, nearest, lat, lon, p, geo)
    {
      var nearest := FindNearestStations(df, HOTSPOT_STATIONS, geo);
      if nearest.Err? {
        return Err(nearest.error);
      }
      var (lat, lon) := location.value;
      var weighted := WeightedHeatScore(nearest.value);
      var hist := FilterData(nearest.value);
      var scores := DailyScoresLoop(hist, lat, lon, geo);
      if scores.Err? {
        return Err(scores.error);
      }
      var threshold := Percentile(scores.value, p);
      if threshold.Err? {
        return Err(threshold.error);
      }
      PercentileErrors(scores.value, p);
      var rank := PercentileOfScore(scores.value, weighted);
      r := Ok(HotspotResult(weighted > threshold.value, weighted, threshold.value, rank));
    }
  }
}
