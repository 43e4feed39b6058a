/** WeatherAnalyzer of analytics/weather_service.py: the two scalers fitted
    once on the historical corpus, the cached current readings, the
    nearest-station search, the hotspot decision, angle_to_dir, the
    request timestamp of _date_to_str and the indoor summary. Reading the CSV, the clock and the live feed are not
    modelled: the corpus, the current time (in microseconds) and the
    fetched readings are parameters. */
module WeatherService {
  import opened Common
  import opened Stats
  import opened Scaling
  import opened Readings
  import opened Stations
  import opened Baseline
  import Api

  /** timedelta(minutes=5) in microseconds. */
  const CACHE_TTL: int := 5 * 60 * 1000000

  /** The cache condition of get_current_weather, as written: the stored
      date minus the current time exceeds five minutes. */
  predicate Refetch(current: Option<seq<Scored>>, date: int, now: int) {
    current.None? || date - now > CACHE_TTL
  }

  /** A calendar time as datetime.now() gives it. */
  datatype DateTime = DateTime(year: int, month: int, day: int, hour: int, minute: int, second: int)

  predicate ValidDateTime(t: DateTime) {
    1000 <= t.year <= 9999 && 1 <= t.month <= 12 && 1 <= t.day <= 31
    && 0 <= t.hour <= 23 && 0 <= t.minute <= 59 && 0 <= t.second <= 59
  }

  function DigitChar(d: int): (c: char)
    requires 0 <= d <= 9
    ensures Api.IsDigit(c) && Api.DigitValue(c) == d
  {
    (d + '0' as int) as char
  }

  function Pad2(n: int): (s: string)
    requires 0 <= n <= 99
    ensures |s| == 2 && Api.IsDigit(s[0]) && Api.IsDigit(s[1])
    ensures 10 * Api.DigitValue(s[0]) + Api.DigitValue(s[1]) == n
  {
    [DigitChar(n / 10), DigitChar(n % 10)]
  }

  function Pad4(n: int): (s: string)
    requires 0 <= n <= 9999
    ensures |s| == 4
  {
    Pad2(n / 100) + Pad2(n % 100)
  }

  /** _date_to_str: strftime("%Y-%m-%dT%H:%M:%S"). */
  function DateToStr(t: DateTime): (s: string)
    requires ValidDateTime(t)
    ensures |s| == 19 && s[10] == 'T' && s[11..13] == Pad2(t.hour)
  {
    Pad4(t.year) + "-" + Pad2(t.month) + "-" + Pad2(t.day) + "T"
      + Pad2(t.hour) + ":" + Pad2(t.minute) + ":" + Pad2(t.second)
  }

  /** With the timestamps the service builds, UV is requested exactly from
      07:00:00 to 21:59:59. */
  lemma UvHoursOfTimestamp(t: DateTime)
    requires ValidDateTime(t)
    ensures Api.UvHours(DateToStr(t)) <==> 7 <= t.hour <= 21
  {
    var s := DateToStr(t);
    assert s[11] == Pad2(t.hour)[0] && s[12] == Pad2(t.hour)[1];
    Api.UvHoursNumeric(s);
  }

  /** What the current branch of _process_weather_data gives with the
      scalers as they stand. */
  function CurrentScores(scaler: MinMaxScaler, scalerHeat: MinMaxScaler, df: seq<Reading>): (r: Result<seq<Scored>>)
    reads scaler, scalerHeat
    requires ScalerPair(scaler, scalerHeat)
    ensures !scaler.fitted ==> r == Err(NotFitted)
    ensures scaler.fitted && |df| == 0 ==> r == Err(EmptyInput)
    ensures r.Ok? ==> |r.value| == |df|
  {
    if !scaler.fitted then Err(NotFitted)
    else if |df| == 0 then Err(EmptyInput)
    else Ok(Normalize(df, FittedModels(scaler, scalerHeat)))
  }

  class WeatherAnalyzer {
    const scaler: MinMaxScaler
    const scalerHeat: MinMaxScaler
    var DATA: seq<Scored>
    var CURRENT: Option<seq<Scored>>
    var date: int

    ghost predicate Valid()
      reads this, scaler, scalerHeat
    {
      ScalerPair(scaler, scalerHeat)
    }

    /** Both scalers new and unfitted, nothing loaded yet. */
    constructor ()
      ensures Valid() && fresh(scaler) && fresh(scalerHeat)
      ensures !scaler.fitted && !scalerHeat.fitted
      ensures DATA == [] && CURRENT == None
    {
      scaler := new MinMaxScaler();
      scalerHeat := new MinMaxScaler();
      DATA := [];
      CURRENT := None;
      date := 0;
    }

    /** _load_and_process_historical_data: the corpus processed with
        historical=True, which refits both scalers. */
    method LoadHistorical(historical: seq<Reading>) returns (r: Result<seq<Scored>>)
      requires Valid()
      modifies scaler, scalerHeat
      ensures Valid()
      ensures |historical| == 0 ==> r == Err(EmptyInput) && !scaler.fitted
      ensures |historical| > 0 ==>
        && r == Ok(Normalize(historical, HistoricalModels(historical)))
        && scaler.fitted
        && FittedModels(scaler, scalerHeat) == HistoricalModels(historical)
    {
      r := ProcessFrame(scaler, scalerHeat, historical, true);
    }

    /** The rest of __init__: load the corpus, reset the cache, stamp the
        date, then fill the cache. */
    method Init(historical: seq<Reading>, now: int, fetched: seq<Reading>) returns (r: Result<()>)
      requires Valid()
      modifies this, scaler, scalerHeat
      ensures Valid()
      ensures |historical| == 0 ==> r == Err(EmptyInput) && !scaler.fitted
      ensures |historical| > 0 ==>
        && DATA == Normalize(historical, HistoricalModels(historical))
        && scaler.fitted
        && FittedModels(scaler, scalerHeat) == HistoricalModels(historical)
        && date == now
      ensures |historical| > 0 && |fetched| == 0 ==> r == Err(EmptyInput) && CURRENT == None
      ensures |historical| > 0 && |fetched| > 0 ==>
        r == Ok(()) && CURRENT == Some(Normalize(fetched, HistoricalModels(historical)))
    {
      var data := LoadHistorical(historical);
      if data.Err? {
        return Err(data.error);
      }
      DATA := data.value;
      CURRENT := None;
      date := now;
      var current := GetCurrentWeather(now, fetched);
      if current.Err? {
        return Err(current.error);
      }
      r := Ok(());
    }

    /** get_current_weather: refetch and transform only when the cache is
        empty or the stored date is more than five minutes after now.
        self.date is never updated here. */
    method GetCurrentWeather(now: int, fetched: seq<Reading>) returns (r: Result<seq<Scored>>)
      requires Valid()
      modifies this, scaler, scalerHeat
      ensures Valid() && unchanged(scaler, scalerHeat)
      ensures DATA == old(DATA) && date == old(date)
      ensures !Refetch(old(CURRENT), old(date), now) ==>
        r == Ok(old(CURRENT).value) && CURRENT == old(CURRENT)
      ensures Refetch(old(CURRENT), old(date), now) ==>
        && r == CurrentScores(scaler, scalerHeat, fetched)
        && CURRENT == (if r.Ok? then Some(r.value) else old(CURRENT))
      ensures old(CURRENT).Some? && now >= old(date) ==>
        r == Ok(old(CURRENT).value) && CURRENT == old(CURRENT)
    {
      if CURRENT.None? || date - now > CACHE_TTL {
        var current := ProcessFrame(scaler, scalerHeat, fetched, false);
        if current.Err? {
          return Err(current.error);
        }
        CURRENT := Some(current.value);
      }
      r := Ok(CURRENT.value);
    }

    /** find_nearest_stations: the cached frame, a copy of it measured and
        cut to the k nearest rows, then weighted. CURRENT itself gains no
        distance column. */
    method FindNearestStations(lat: real, lon: real, k: int, now: int, fetched: seq<Reading>, geo: Metric)
      returns (r: Result<seq<Station>>)
      requires Valid()
      modifies this, scaler, scalerHeat
      ensures Valid() && unchanged(scaler, scalerHeat)
      ensures DATA == old(DATA) && date == old(date)
      ensures !Refetch(old(CURRENT), old(date), now) ==>
        CURRENT == old(CURRENT) && r == Nearest(old(CURRENT).value, lat, lon, k, geo)
      ensures Refetch(old(CURRENT), old(date), now) ==>
        var c := CurrentScores(scaler, scalerHeat, fetched);
        && CURRENT == (if c.Ok? then Some(c.value) else old(CURRENT))
        && r == (if c.Ok? then Nearest(c.value, lat, lon, k, geo) else Err(c.error))
    {
      var current := GetCurrentWeather(now, fetched);
      if current.Err? {
        return Err(current.error);
      }
      r := Nearest(current.value, lat, lon, k, geo);
    }

    /** __filter_data: the corpus rows of the chosen stations. */
    function FilterData(nearest: seq<Station>): (rows: seq<Scored>)
      reads this
      ensures forall x :: x in rows <==> x in DATA && x.reading.stationId in StationIds(nearest)
    {
      FilterMembers(DATA, StationIds(nearest));
      FilterByStations(DATA, StationIds(nearest))
    }

    /** is_hotspot: the current weighted score against the percentile of
        the per-date weighted scores of the same stations. */
    method IsHotspot(nearest: seq<Station>, lat: real, lon: real, p: int, geo: Metric)
      returns (r: Result<HotspotResult>)
      ensures r == Hotspot(DATA, nearest, lat, lon, p, geo)
    {
      var weighted := WeightedHeatScore(nearest);
      var hist := FilterData(nearest);
      var scores := DailyScoresLoop(hist, lat, lon, geo);
      if scores.Err? {
        return Err(scores.error);
      }
      var threshold := Percentile(scores.value, p);
      if threshold.Err? {
        return Err(threshold.error);
      }
      PercentileErrors(scores.value, p);
      var rank := PercentileOfScore(scores.value, weighted);
      r := Ok(HotspotResult(weighted > threshold.value, weighted, threshold.value, rank));
    }

    /** get_indoor_summary on the cached frame; with no cached frame the
        copy fails. */
    function GetIndoorSummary(): (r: Result<seq<IndoorRow>>)
      reads this
      ensures CURRENT.None? ==> r == Err(NoCurrentWeather)
      ensures CURRENT.Some? ==> r == Ok(IndoorSummary(CURRENT.value))
    {
      if CURRENT.None? then Err(NoCurrentWeather) else Ok(IndoorSummary(CURRENT.value))
    }
  }

  // -----------------------------------------------------------------------
  // angle_to_dir
  // -----------------------------------------------------------------------

  /** directions[int((angle % 360) / 22.5)]. Python's % with a positive
      modulus is never negative, like Dafny's; on an angle in [0, 360) the
      float quotient by 22.5 = 45 / 2 truncates to 2 * angle div 45. */
  function AngleToDir(angle: int): (r: string)
    ensures r in Api.DIRECTIONS
  {
    var a := angle % 360;
    var section := (2 * a) / 45;
    Api.DIRECTIONS[section]
  }

  /** angle and angle + 360 name the same direction. */
  lemma AngleToDirPeriodic(angle: int)
    ensures AngleToDir(angle + 360) == AngleToDir(angle)
  {
    assert (angle + 360) % 360 == angle % 360;
  }

  /** On the circle it agrees with the float mapping of api.py. */
  lemma AngleToDirAgrees(angle: int)
    requires 0 <= angle < 360
    ensures Api.Compass(angle as real) == Ok(AngleToDir(angle))
  {
    var k := (2 * angle) / 45;
    assert AngleToDir(angle) == Api.DIRECTIONS[k] by {
      assert angle % 360 == angle;
    }
    assert ((angle as real) / 22.5).Floor == k by {
      assert (angle as real) / 22.5 == ((2 * angle) as real) / (45 as real);
      FloorOfQuotient(2 * angle, 45);
    }
    Api.CompassInCircle(angle as real);
  }

  lemma FloorOfQuotient(a: int, d: int)
    requires a >= 0 && d > 0
    ensures ((a as real) / (d as real)).Floor == a / d
  {
    var q, m := a / d, a % d;
    assert a == q * d + m;
    assert (a as real) / (d as real) == (q as real) + (m as real) / (d as real);
    DivBelowOne(m, d);
  }

  lemma DivBelowOne(m: int, d: int)
    requires 0 <= m < d
    ensures 0.0 <= (m as real) / (d as real) < 1.0
  {
  }

  // -----------------------------------------------------------------------
  // get_indoor_summary
  // -----------------------------------------------------------------------

  /** The stations of INDOOR_MAPPING, in its order. */
  function IndoorStations(): (ids: seq<string>)
    ensures |ids| == |Api.INDOOR_MAPPING|
    ensures forall i :: 0 <= i < |ids| ==> ids[i] == Api.INDOOR_MAPPING[i].1
  {
    seq(|Api.INDOOR_MAPPING|, i requires 0 <= i < |Api.INDOOR_MAPPING| => Api.INDOOR_MAPPING[i].1)
  }

  /** {v: k for k, v in mapping.items()}[id]: the last room with that
      station wins. */
  function ReverseLookup(mapping: seq<(string, string)>, id: string): (room: Option<string>)
    ensures room.Some? <==> exists i :: 0 <= i < |mapping| && mapping[i].1 == id
    ensures room.Some? ==> exists i :: 0 <= i < |mapping| && mapping[i] == (room.value, id)
  {
    if |mapping| == 0 then None
    else if mapping[|mapping| - 1].1 == id then Some(mapping[|mapping| - 1].0)
    else
      var rest := ReverseLookup(mapping[..|mapping| - 1], id);
      assert forall i :: 0 <= i < |mapping| - 1 ==> mapping[..|mapping| - 1][i] == mapping[i];
      rest
  }

  function RoomOf(id: string): Option<string> {
    ReverseLookup(Api.INDOOR_MAPPING, id)
  }

  /** Every station of INDOOR_MAPPING maps back to its own room, and no
      other station has a room. */
  lemma RoomOfInverts(id: string)
    ensures RoomOf(id).Some? <==> id in IndoorStations()
    ensures forall i :: 0 <= i < |Api.INDOOR_MAPPING| && Api.INDOOR_MAPPING[i].1 == id ==>
      RoomOf(id) == Some(Api.INDOOR_MAPPING[i].0)
  {
    var m := Api.INDOOR_MAPPING;
    if id in IndoorStations() {
      var i :| 0 <= i < |m| && IndoorStations()[i] == id;
      assert m[i].1 == id;
    }
    forall i | 0 <= i < |m| && m[i].1 == id ensures RoomOf(id) == Some(m[i].0) {
      var j :| 0 <= j < |m| && m[j] == (RoomOf(id).value, id);
      assert i == j;
    }
  }

  /** One row of the indoor summary. */
  datatype IndoorRow = IndoorRow(room: string, airTemp: real, humidity: real, windSpeed: real,
                                 windDirection: Option<string>, heatStress: real)

  /** The heat-stress estimate, before rounding to 3 decimals. */
  function HeatStress(airTemp: real, windSpeed: real, humidity: real): real {
    0.726330 * airTemp + 0.012713 * windSpeed + 0.109697 * humidity - 5.12977
  }

  /** The first Living Room row's windDirection_dir, if any. */
  function LivingRoomDir(kept: seq<Scored>): Option<string> {
    if |kept| == 0 then None
    else if RoomOf(kept[0].reading.stationId) == Some("Living Room") then kept[0].reading.windDirection
    else LivingRoomDir(kept[1..])
  }

  function IndoorSummary(current: seq<Scored>): (rows: seq<IndoorRow>)
    ensures |rows| == |FilterByStations(current, IndoorStations())|
  {
    var kept := FilterByStations(current, IndoorStations());
    var dir := LivingRoomDir(kept);
    FilterMembers(current, IndoorStations());
    seq(|kept|, k requires 0 <= k < |kept| =>
      var x := kept[k].reading;
      assert kept[k] in kept;
      RoomOfInverts(x.stationId);
      IndoorRow(RoomOf(x.stationId).value, x.airTemp, x.humidity, x.windSpeed, dir,
                HeatStress(x.airTemp, x.windSpeed, x.humidity)))
  }

  /** The summary keeps exactly the rows of mapped stations, in order, each
      labelled with its room and all with the Living Room's direction. */
  lemma IndoorSummarySpec(current: seq<Scored>, k: int)
    requires 0 <= k < |FilterByStations(current, IndoorStations())|
    ensures var kept := FilterByStations(current, IndoorStations());
            var row := IndoorSummary(current)[k];
            && kept[k] in current
            && Some(row.room) == RoomOf(kept[k].reading.stationId)
            && row.airTemp == kept[k].reading.airTemp
            && row.humidity == kept[k].reading.humidity
            && row.windSpeed == kept[k].reading.windSpeed
            && row.windDirection == LivingRoomDir(kept)
            && row.heatStress == HeatStress(row.airTemp, row.windSpeed, row.humidity)
  {
    var kept := FilterByStations(current, IndoorStations());
    FilterMembers(current, IndoorStations());
    assert kept[k] in kept;
    RoomOfInverts(kept[k].reading.stationId);
  }

  /** A reading of a mapped station is kept; any other is dropped. */
  lemma IndoorRowsKept(current: seq<Scored>, x: Scored)
    ensures x in FilterByStations(current, IndoorStations()) <==> x in current && RoomOf(x.reading.stationId).Some?
  {
    FilterMembers(current, IndoorStations());
    RoomOfInverts(x.reading.stationId);
  }

  /** The shared direction is that of a kept Living Room row, or none when
      no Living Room station reported. */
  lemma {:induction false} LivingRoomDirFrom(kept: seq<Scored>)
    ensures LivingRoomDir(kept).Some? ==>
      exists k :: 0 <= k < |kept| && RoomOf(kept[k].reading.stationId) == Some("Living Room")
                  && kept[k].reading.windDirection == LivingRoomDir(kept)
    ensures (forall k :: 0 <= k < |kept| ==> RoomOf(kept[k].reading.stationId) != Some("Living Room")) ==>
      LivingRoomDir(kept) == None
  {
    if |kept| > 0 && RoomOf(kept[0].reading.stationId) != Some("Living Room") {
      LivingRoomDirFrom(kept[1..]);
      assert forall k :: 1 <= k < |kept| ==> kept[k] == kept[1..][k - 1];
      if LivingRoomDir(kept).Some? {
        var k :| 0 <= k < |kept[1..]| && RoomOf(kept[1..][k].reading.stationId) == Some("Living Room")
                 && kept[1..][k].reading.windDirection == LivingRoomDir(kept[1..]);
        assert kept[k + 1] == kept[1..][k];
      }
    }
  }

  /** The shared direction is the one of the first kept Living Room row. */
  lemma {:induction false} LivingRoomDirFirst(kept: seq<Scored>, k: int)
    requires 0 <= k < |kept| && RoomOf(kept[k].reading.stationId) == Some("Living Room")
    requires forall j :: 0 <= j < k ==> RoomOf(kept[j].reading.stationId) != Some("Living Room")
    ensures LivingRoomDir(kept) == kept[k].reading.windDirection
    decreases k
  {
    if k > 0 {
      assert RoomOf(kept[0].reading.stationId) != Some("Living Room");
      assert forall j :: 0 <= j < k - 1 ==> kept[1..][j] == kept[j + 1];
      assert kept[1..][k - 1] == kept[k];
      LivingRoomDirFirst(kept[1..], k - 1);
    }
  }
}
