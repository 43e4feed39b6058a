/** The pure parts of analytics/api.py: the degrees-to-compass mapping
    windDirection_mapping, the UV category table uv_mapping, the hour gate
    on the UV request, the inner join of the five station tables inside
    get_weather_data, and the INDOOR_MAPPING table. The HTTP requests are
    not modelled: their decoded tables are the inputs. */
module Api {
  import opened Common

  /** The sixteen compass points, clockwise from north. */
  const DIRECTIONS: seq<string> :=
    ["N", "NNE", "NE", "ENE", "E", "ESE", "SE", "SSE",
     "S", "SSW", "SW", "WSW", "W", "WNW", "NW", "NNW"]

  /** Python's int() on a float: truncation toward zero. */
  function Trunc(x: real): (k: int)
    ensures 0.0 <= x ==> k as real <= x < k as real + 1.0
    ensures x < 0.0 ==> k as real - 1.0 < x <= k as real
  {
    if x >= 0.0 then x.Floor else -((-x).Floor)
  }

  /** section = int(angle / 22.5). */
  function Section(angle: real): int {
    Trunc(angle / 22.5)
  }

  /** Python list indexing, negative indices counting from the end. */
  function PyIndex(table: seq<string>, k: int): (r: Result<string>)
    ensures r.Ok? <==> -|table| <= k < |table|
    ensures r.Err? ==> r.error == IndexOutOfRange
    ensures 0 <= k < |table| ==> r == Ok(table[k])
    ensures -|table| <= k < 0 ==> r == Ok(table[|table| + k])
  {
    if 0 <= k < |table| then Ok(table[k])
    else if -|table| <= k < 0 then Ok(table[|table| + k])
    else Err(IndexOutOfRange)
  }

  /** One element of windDirection_mapping: directions[int(angle / 22.5)]. */
  function Compass(angle: real): (r: Result<string>)
    ensures r.Ok? <==> -|DIRECTIONS| <= Section(angle) < |DIRECTIONS|
    ensures r.Ok? ==> r.value in DIRECTIONS
  {
    PyIndex(DIRECTIONS, Section(angle))
  }

  /** A whole column mapped, failing at the first angle out of range. */
  function DirectionsOf(uv: seq<real>): (r: Result<seq<string>>)
    ensures r.Err? <==> exists i :: 0 <= i < |uv| && Compass(uv[i]).Err?
    ensures r.Err? ==> r.error == IndexOutOfRange
    ensures r.Ok? ==> |r.value| == |uv| && forall i :: 0 <= i < |uv| ==> Ok(r.value[i]) == Compass(uv[i])
  {
    if exists i :: 0 <= i < |uv| && Compass(uv[i]).Err? then Err(IndexOutOfRange)
    else Ok(seq(|uv|, i requires 0 <= i < |uv| => Compass(uv[i]).value))
  }

  /** windDirection_mapping(uv): an index loop appending one label per angle. */
  method WindDirectionMapping(uv: seq<real>) returns (r: Result<seq<string>>)
    ensures r == DirectionsOf(uv)
  {
    var dir: seq<string> := [];
    var i := 0;
    while i < |uv|
      invariant 0 <= i <= |uv| && |dir| == i
      invariant forall t :: 0 <= t < i ==> Compass(uv[t]) == Ok(dir[t])
    {
      var point := Compass(uv[i]);
      if point.Err? {
        assert Compass(uv[i]).Err?;
        return Err(point.error);
      }
      dir := dir + [point.value];
      i := i + 1;
    }
    assert forall t :: 0 <= t < |uv| ==> Compass(uv[t]).Ok?;
    assert dir == DirectionsOf(uv).value;
    r := Ok(dir);
  }

  /** On [0, 360) the section is the floor of angle / 22.5, always 0 .. 15,
      so the mapping never fails there. */
  lemma CompassInCircle(angle: real)
    requires 0.0 <= angle < 360.0
    ensures 0 <= Section(angle) < 16
    ensures Section(angle) == (angle / 22.5).Floor
    ensures Compass(angle) == Ok(DIRECTIONS[(angle / 22.5).Floor])
  {
    DivBelow(angle, 22.5, 360.0);
  }

  lemma DivBelow(a: real, d: real, bound: real)
    requires d > 0.0 && 0.0 <= a < bound
    ensures 0.0 <= a / d < bound / d
  {
  }

  /** There is no mod-360 step: 360 degrees and more index past the table. */
  lemma CompassOverflow(angle: real)
    requires angle >= 360.0
    ensures Compass(angle) == Err(IndexOutOfRange)
  {
    DivAtLeast(angle, 22.5, 360.0);
  }

  lemma DivAtLeast(a: real, d: real, bound: real)
    requires d > 0.0 && a >= bound
    ensures a / d >= bound / d
  {
  }

  /** Negative angles truncate toward zero and then index from the end:
      down to -382.5 (exclusive) they map to a label, below that they fail. */
  lemma CompassNegative(angle: real)
    requires angle < 0.0
    ensures Compass(angle).Ok? <==> angle > -382.5
  {
    if angle > -382.5 {
      DivAbove(angle, 22.5, -382.5);
    } else {
      DivAtMost(angle, 22.5, -382.5);
    }
  }

  lemma DivAbove(a: real, d: real, bound: real)
    requires d > 0.0 && a > bound
    ensures a / d > bound / d
  {
  }

  lemma DivAtMost(a: real, d: real, bound: real)
    requires d > 0.0 && a <= bound
    ensures a / d <= bound / d
  {
  }

  /** Two points named by the wind-direction feed's comment: 0 degrees is
      north and 315 degrees is northwest. */
  lemma CompassExamples()
    ensures Compass(0.0) == Ok("N")
    ensures Compass(315.0) == Ok("NW")
    ensures Compass(359.0) == Ok("NNW")
  {
    assert 315.0 / 22.5 == 14.0;
    assert (359.0 / 22.5).Floor == 15;
  }

  // -----------------------------------------------------------------------
  // uv_mapping
  // -----------------------------------------------------------------------

  /** The (category, advice) pair for a UV index. */
  function UvMapping(uv: real): (r: (string, string))
    ensures r.0 in ["Low", "Moderate", "High", "Very High", "Extreme"]
    ensures r.1 == Advice(r.0)
    ensures r.0 == "Low" <==> uv <= 2.0
  {
    if uv <= 2.0 then ("Low", "Feel free to go out and play!")
    else if 3.0 <= uv <= 5.0 then ("Moderate", "Use sunscreen (at least SPF 30) and sunglasses.")
    else if 6.0 <= uv <= 7.0 then ("High", "Stay in shade during midday.")
    else if 8.0 <= uv <= 10.0 then ("Very High", "Reduce time in the sun!")
    else ("Extreme", "Avoid being outside!")
  }

  /** The advice string each category carries. */
  function Advice(category: string): string {
    if category == "Low" then "Feel free to go out and play!"
    else if category == "Moderate" then "Use sunscreen (at least SPF 30) and sunglasses."
    else if category == "High" then "Stay in shade during midday."
    else if category == "Very High" then "Reduce time in the sun!"
    else "Avoid being outside!"
  }

  /** The category of an integer index, by band. */
  function Band(u: int): string {
    if u <= 2 then "Low"
    else if u <= 5 then "Moderate"
    else if u <= 7 then "High"
    else if u <= 10 then "Very High"
    else "Extreme"
  }

  /** On integers the conditions form the bands <=2, 3-5, 6-7, 8-10, >10,
      and every category comes with its own advice. */
  lemma UvIntegerBands(u: int)
    ensures UvMapping(u as real).0 == Band(u)
    ensures UvMapping(u as real).1 == Advice(Band(u))
  {
  }

  /** Fractional indices inside the gaps between bands fall through to the
      last branch, as does everything above 10. */
  lemma UvGapsAreExtreme(uv: real)
    requires 2.0 < uv < 3.0 || 5.0 < uv < 6.0 || 7.0 < uv < 8.0 || uv > 10.0
    ensures UvMapping(uv) == ("Extreme", "Avoid being outside!")
  {
  }

  // -----------------------------------------------------------------------
  // The UV hour gate
  // -----------------------------------------------------------------------

  /** Python's s[i:j] for 0 <= i <= j: out-of-range bounds are clamped. */
  function Slice(s: string, i: nat, j: nat): (r: string)
    requires i <= j
    ensures |r| == (if j <= |s| then j - i else if i <= |s| then |s| - i else 0)
  {
    var a := if i <= |s| then i else |s|;
    var b := if j <= |s| then j else |s|;
    s[a..b]
  }

  /** Python's a <= b on strings: lexicographic on code points. */
  predicate LexLe(a: string, b: string) {
    |a| == 0 || (|b| > 0 && (a[0] < b[0] || (a[0] == b[0] && LexLe(a[1..], b[1..]))))
  }

  /** datetime[11:13] >= "07" and datetime[11:13] <= "21". */
  predicate UvHours(datetime: string) {
    var hh := Slice(datetime, 11, 13);
    LexLe("07", hh) && LexLe(hh, "21")
  }

  /** uv_index stays 0 outside the gate; inside it is the fetched value. */
  function UvIndex(datetime: string, fetched: real): (uv: real)
    ensures !UvHours(datetime) ==> uv == 0.0
    ensures UvHours(datetime) ==> uv == fetched
  {
    if UvHours(datetime) then fetched else 0.0
  }

  predicate IsDigit(c: char) {
    '0' <= c <= '9'
  }

  function DigitValue(c: char): int
    requires IsDigit(c)
  {
    c as int - '0' as int
  }

  /** On a two-digit hour the string comparison is the numeric one. */
  lemma {:induction false} UvHoursNumeric(datetime: string)
    requires |datetime| >= 13 && IsDigit(datetime[11]) && IsDigit(datetime[12])
    ensures UvHours(datetime) <==>
      7 <= 10 * DigitValue(datetime[11]) + DigitValue(datetime[12]) <= 21
  {
    var hh := Slice(datetime, 11, 13);
    assert hh == [datetime[11], datetime[12]];
    assert hh[1..] == [datetime[12]];
    assert "07"[1..] == "7" && "21"[1..] == "1";
    assert LexLe("7", [datetime[12]]) <==> '7' <= datetime[12] by {
      assert [datetime[12]][1..] == [];
    }
    assert LexLe([datetime[12]], "1") <==> datetime[12] <= '1' by {
      assert [datetime[12]][1..] == [];
    }
  }

  /** A timestamp too short to hold an hour never passes the gate. */
  lemma UvHoursShort(datetime: string)
    requires |datetime| <= 11
    ensures !UvHours(datetime)
  {
    assert Slice(datetime, 11, 13) == [];
  }

  // -----------------------------------------------------------------------
  // The inner join in get_weather_data
  // -----------------------------------------------------------------------

  /** One station of the location table. */
  datatype Site = Site(stationId: string, location: string, latitude: real, longitude: real)

  /** One reading of a measurement table. */
  datatype Sample = Sample(stationId: string, value: real)

  /** One row of the joined frame, with the two columns added after the join. */
  datatype StationWeather = StationWeather(
    site: Site, airTemp: real, windSpeed: real, windDirectionDeg: real, humidity: real,
    windDirectionDir: string, uvIndex: real)

  function SampleIds(t: seq<Sample>): (ids: seq<string>)
    ensures |ids| == |t| && forall i :: 0 <= i < |t| ==> ids[i] == t[i].stationId
  {
    seq(|t|, i requires 0 <= i < |t| => t[i].stationId)
  }

  function SiteIds(loc: seq<Site>): (ids: seq<string>)
    ensures |ids| == |loc| && forall i :: 0 <= i < |loc| ==> ids[i] == loc[i].stationId
  {
    seq(|loc|, i requires 0 <= i < |loc| => loc[i].stationId)
  }

  /** The value of the first reading of a station, if the table has one. */
  function Lookup(t: seq<Sample>, id: string): (v: Option<real>)
    ensures v.Some? <==> id in SampleIds(t)
    ensures v.Some? ==> exists i :: 0 <= i < |t| && t[i] == Sample(id, v.value)
  {
    if |t| == 0 then None
    else if t[0].stationId == id then Some(t[0].value)
    else
      assert SampleIds(t) == [t[0].stationId] + SampleIds(t[1..]);
      var rest := Lookup(t[1..], id);
      assert forall i :: 1 <= i < |t| ==> t[i] == t[1..][i - 1];
      rest
  }

  /** A joined row before the direction and UV columns are added. */
  datatype Join = Join(site: Site, airTemp: real, windSpeed: real, windDirectionDeg: real, humidity: real)

  function JoinIds(j: seq<Join>): (ids: seq<string>)
    ensures |ids| == |j| && forall i :: 0 <= i < |j| ==> ids[i] == j[i].site.stationId
  {
    seq(|j|, i requires 0 <= i < |j| => j[i].site.stationId)
  }

  /** loc.join([air, wind, direction, humidity], how="inner") on stationId:
      the location rows, in order, of the stations every table has, each
      with its readings. The frame holds a station exactly when all five
      tables do. */
  function InnerJoin(loc: seq<Site>, air: seq<Sample>, wind: seq<Sample>,
                     dirs: seq<Sample>, hum: seq<Sample>): (j: seq<Join>)
    ensures |j| <= |loc|
  {
    if |loc| == 0 then []
    else
      var id := loc[0].stationId;
      var rest := InnerJoin(loc[1..], air, wind, dirs, hum);
      var a, w, d, h := Lookup(air, id), Lookup(wind, id), Lookup(dirs, id), Lookup(hum, id);
      if a.Some? && w.Some? && d.Some? && h.Some? then
        [Join(loc[0], a.value, w.value, d.value, h.value)] + rest
      else rest
  }

  /** The joined frame holds a station exactly when all five tables do. */
  lemma {:induction false} InnerJoinMembers(loc: seq<Site>, air: seq<Sample>, wind: seq<Sample>,
                                            dirs: seq<Sample>, hum: seq<Sample>, id: string)
    ensures id in JoinIds(InnerJoin(loc, air, wind, dirs, hum)) <==>
      id in SiteIds(loc) && id in SampleIds(air) && id in SampleIds(wind)
        && id in SampleIds(dirs) && id in SampleIds(hum)
  {
    if |loc| > 0 {
      InnerJoinMembers(loc[1..], air, wind, dirs, hum, id);
      var id0 := loc[0].stationId;
      var head := if InAll(air, wind, dirs, hum, id0) then [id0] else [];
      var rest := JoinIds(InnerJoin(loc[1..], air, wind, dirs, hum));
      JoinIdsStep(loc, air, wind, dirs, hum);
      SiteIdsCons(loc);
      InCons(id, id0, SiteIds(loc[1..]));
      assert id in head + rest <==> id in head || id in rest;
      if id == id0 {
        assert id in head <==> InAll(air, wind, dirs, hum, id);
      } else {
        assert id !in head;
      }
    }
  }

  lemma SiteIdsCons(loc: seq<Site>)
    requires |loc| > 0
    ensures SiteIds(loc) == [loc[0].stationId] + SiteIds(loc[1..])
  {
    var l, r := SiteIds(loc), [loc[0].stationId] + SiteIds(loc[1..]);
    forall i | 0 <= i < |l| ensures l[i] == r[i] {
      if i > 0 {
        assert loc[i] == loc[1..][i - 1];
      }
    }
  }

  lemma InCons<T>(x: T, h: T, t: seq<T>)
    ensures x in [h] + t <==> x == h || x in t
  {
    if x in [h] + t && x != h {
      var i :| 0 <= i < |t| + 1 && ([h] + t)[i] == x;
      assert t[i - 1] == x;
    }
  }

  /** The station is in all four reading tables. */
  predicate InAll(air: seq<Sample>, wind: seq<Sample>, dirs: seq<Sample>, hum: seq<Sample>, id: string) {
    id in SampleIds(air) && id in SampleIds(wind) && id in SampleIds(dirs) && id in SampleIds(hum)
  }

  /** One location row of the join: it contributes its station exactly when
      all four tables have it. */
  lemma JoinIdsStep(loc: seq<Site>, air: seq<Sample>, wind: seq<Sample>,
                    dirs: seq<Sample>, hum: seq<Sample>)
    requires |loc| > 0
    ensures JoinIds(InnerJoin(loc, air, wind, dirs, hum)) ==
      (if InAll(air, wind, dirs, hum, loc[0].stationId) then [loc[0].stationId] else [])
        + JoinIds(InnerJoin(loc[1..], air, wind, dirs, hum))
  {
    var id0 := loc[0].stationId;
    var j := InnerJoin(loc, air, wind, dirs, hum);
    var rest := InnerJoin(loc[1..], air, wind, dirs, hum);
    var a, w, d, h := Lookup(air, id0), Lookup(wind, id0), Lookup(dirs, id0), Lookup(hum, id0);
    if a.Some? && w.Some? && d.Some? && h.Some? {
      var row := Join(loc[0], a.value, w.value, d.value, h.value);
      assert j == [row] + rest;
      JoinIdsCons(row, rest);
    } else {
      assert j == rest;
    }
  }

  lemma JoinIdsCons(row: Join, rest: seq<Join>)
    ensures JoinIds([row] + rest) == [row.site.stationId] + JoinIds(rest)
  {
    var l, r := JoinIds([row] + rest), [row.site.stationId] + JoinIds(rest);
    assert |l| == |r|;
    forall i | 0 <= i < |l| ensures l[i] == r[i] {
      if i > 0 {
        assert ([row] + rest)[i] == rest[i - 1];
      }
    }
  }

  /** The columns of the joined frame get_weather_data returns, from the
      decoded tables and the UV reading. */
  function WeatherFrame(datetime: string, loc: seq<Site>, air: seq<Sample>, wind: seq<Sample>,
                        dirs: seq<Sample>, hum: seq<Sample>, uvFetched: real): (r: Result<seq<StationWeather>>)
    ensures var j := InnerJoin(loc, air, wind, dirs, hum);
            r.Ok? ==> |r.value| == |j| && forall k :: 0 <= k < |j| ==>
              && r.value[k].site == j[k].site
              && r.value[k].airTemp == j[k].airTemp
              && r.value[k].windSpeed == j[k].windSpeed
              && r.value[k].windDirectionDeg == j[k].windDirectionDeg
              && r.value[k].humidity == j[k].humidity
              && Compass(j[k].windDirectionDeg) == Ok(r.value[k].windDirectionDir)
              && r.value[k].uvIndex == UvIndex(datetime, uvFetched)
  {
    var j := InnerJoin(loc, air, wind, dirs, hum);
    var labels :- DirectionsOf(seq(|j|, k requires 0 <= k < |j| => j[k].windDirectionDeg));
    var uv := UvIndex(datetime, uvFetched);
    Ok(seq(|j|, k requires 0 <= k < |j| =>
      StationWeather(j[k].site, j[k].airTemp, j[k].windSpeed, j[k].windDirectionDeg,
                     j[k].humidity, labels[k], uv)))
  }

  // -----------------------------------------------------------------------
  // INDOOR_MAPPING
  // -----------------------------------------------------------------------

  /** Room name to the station standing in for it, in declaration order. */
  const INDOOR_MAPPING: seq<(string, string)> :=
    [("Living Room", "S109"), ("Bedroom", "S44"), ("Kitchen", "S106"),
     ("Shelter", "S117"), ("Storage", "S43"), ("Toilet", "S107")]
}
